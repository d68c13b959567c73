# aami core, modelled in Dafny

This project models the core of **aami**, a GPU-cluster monitoring system built from:

- a node-side check runner in Python;
- a Go config server (jobs, alert rules, check settings, script policies, exporters, targets, Prometheus rule files);
- a Go command-line tool (federation planning, Slurm and NVLink parsing, upgrades, backup restore, the cluster registry, SSH retries and table formatting).

Each core source file is one Dafny module. The modules follow the source's form:

- Pure Go and Python functions become Dafny functions with lemmas about them.
- Loops become methods with loop invariants, each proved against a specification function.
- Objects that update their own state, such as the job store, the cluster registry, the rule-file manager, the dynamic check runner's filesystem and the bootstrap token, become classes. Their methods carry `modifies` clauses and state the new state.

Helper modules give the language-level behaviour the core relies on:

- `Wrappers`: Option, Result and Outcome.
- `GoStrings`: Go's `strings` and `strconv` functions on `seq<char>`, with Go's truncating `/` and `%`.
- `GoPath`: `filepath.Join` and `filepath.Base`.
- `Values`: a JSON-like value and Go's map merges.
- `Seqs` and `Sorting`: flattening, distinctness and sorting.

Oracles stand in for everything the core cannot compute itself: HTTP responses, subprocess outcomes, clock readings, regular-expression matches, YAML/JSON marshalling, template rendering and repository lookups. Each is a parameter, so every property holds for every answer an oracle may give.

`_save_check_script` does not replace `current.sh` atomically: it removes the link and then creates a new one (scripts/node/dynamic_check.py:258-263), so between the two steps there is no link. The model does the same.

## Model

| member | source | states |
|---|---|---|
| DynamicCheck.StripTrailingSlashes | scripts/node/dynamic_check.py:208 | `rstrip('/')`: the result is a prefix of the input that does not end in '/', and everything removed was '/' |
| DynamicCheck.FetchUrl | scripts/node/dynamic_check.py:208 | the fetch URL is the server URL without trailing slashes, followed by `/api/v1/checks/target/hostname/` and the hostname |
| DynamicCheck.ConfigOrEmpty | scripts/node/dynamic_check.py:225 | a truthy config is kept; a missing or falsy one (null, empty object) becomes `{}`, and `{}` results exactly in those cases |
| DynamicCheck.ToCheckInfo | scripts/node/dynamic_check.py:221-226 | each missing field of a fetched record becomes "", each present one is copied, and the config is truthy or `{}` |
| DynamicCheck.CheckInfos | scripts/node/dynamic_check.py:219-227 | one CheckInfo per fetched record, in order |
| DynamicCheck.FetchChecks | scripts/node/dynamic_check.py:206-240 | `_fetch_effective_checks` returns None exactly when the request or the decoding failed |
| DynamicCheck.ResultOf | scripts/node/dynamic_check.py:287-322 | a check result is a success exactly when the script exited with status 0, and it carries the check's name |
| DynamicCheck.Succeeded | scripts/node/dynamic_check.py:184-187 | the success count of the first n checks is at most n |
| DynamicCheck.ErrorMetricRoundTrip | scripts/node/dynamic_check.py:324-329 | the `check` label of a generated error metric reads back as the check name |
| DynamicCheck.ErrorMetric | scripts/node/dynamic_check.py:324-329 | the error metric published for a failed check: the `aami_check_error` gauge at 1 with the check's name as its `check` label, which ErrorMetricRoundTrip reads back |
| DynamicCheck.StatusMetrics | scripts/node/dynamic_check.py:343-366 | the status text: HELP, TYPE and value lines of six gauges (fetch status, timestamp, duration, total, success, failed) in that order, which SummaryRoundTrip reads back |
| DynamicCheck.ReadGaugesRoundTrip | scripts/node/dynamic_check.py:343-366 | the values written into the gauge blocks read back from the text, block by block |
| DynamicCheck.SummaryRoundTrip | scripts/node/dynamic_check.py:340-366 | the six gauge values of the status text (status, timestamp, duration, total, success, failed) read back as written |
| DynamicCheck.ScriptFileIsNotLink | scripts/node/dynamic_check.py:247-248 | the hash-named script file and `current.sh` are different paths |
| DynamicCheck.ResultTmpIsNotFile | scripts/node/dynamic_check.py:269-270 | a check's temporary result path differs from its final path |
| DynamicCheck.StatusTmpIsNotFile | scripts/node/dynamic_check.py:368-369 | the temporary status path differs from `aami_status.prom` |
| DynamicCheck.ResultFileInjective | scripts/node/dynamic_check.py:270 | two checks share a `<name>.prom` only when their names are the same string (paths joined as strings; see Left out) |
| DynamicCheck.CurrentLinkInjective | scripts/node/dynamic_check.py:248 | two checks share a `current.sh` only when their names are the same string (paths joined as strings; see Left out) |
| DynamicCheck.StatusFileIsResultFile | scripts/node/dynamic_check.py:368-369 | a check's `<name>.prom` is `aami_status.prom` exactly when the check's name is the string `aami_status` (paths joined as strings; see Left out), and is never the temporary status path |
| DynamicCheck.ResultFileMisses | scripts/node/dynamic_check.py:247-270 | a check's `<name>.prom` is none of the four paths a check whose name is another string writes (paths joined as strings; see Left out) |
| DynamicCheck.CurrentLinkMisses | scripts/node/dynamic_check.py:247-270 | a check's `current.sh` is none of the four paths a check whose name is another string writes (paths joined as strings; see Left out), unless that check's script file is that very path |
| DynamicCheck.Publish | scripts/node/dynamic_check.py:289-290 | temp-then-rename on a filesystem state; PublishEffect states what it does |
| DynamicCheck.PublishEffect | scripts/node/dynamic_check.py:289-290 | temp-then-rename: a failing temporary write raises and changes nothing; otherwise the final path holds the content, the temporary path is gone and no other path changes |
| DynamicCheck.SaveScript | scripts/node/dynamic_check.py:242-265 | `_save_check_script` on a filesystem state; SaveScriptEffect states what it does |
| DynamicCheck.SaveScriptEffect | scripts/node/dynamic_check.py:242-265 | saving raises exactly when a needed write fails; otherwise it returns `current.sh`, which then links to `name_hash.sh`, an existing script is not rewritten, a new one holds the body, and no other path changes |
| DynamicCheck.SaveScriptIdempotent | scripts/node/dynamic_check.py:250-263 | a second save of the same check leaves the filesystem exactly as the first save left it |
| DynamicCheck.CheckExecution | scripts/node/dynamic_check.py:267-322 | `_execute_check` on a filesystem state for one subprocess outcome; ExecuteCheckEffect states what it does |
| DynamicCheck.ExecuteCheckEffect | scripts/node/dynamic_check.py:267-322 | exit status 0 publishes stdout verbatim and succeeds; a nonzero exit, a timeout or an exception publishes the error metric and fails; a failing temporary write raises |
| DynamicCheck.CheckStep | scripts/node/dynamic_check.py:176-187 | one turn of the check loop on a state: SaveScript, then CheckExecution of the execution of `current.sh`, stopping at the first that raises |
| DynamicCheck.CheckLoop | scripts/node/dynamic_check.py:170-187 | the check loop as a fold of CheckStep over the checks from a state, stopping at the first turn that raises |
| DynamicCheck.CheckStepEffect | scripts/node/dynamic_check.py:176-187 | a turn raises only with a path that cannot be written; when it returns, its value says whether the execution of `current.sh` exited 0, `<name>.prom` holds stdout on exit 0 and the error metric otherwise, and `current.sh` links to `name_hash.sh` |
| DynamicCheck.CheckStepKeeps | scripts/node/dynamic_check.py:242-322 | a turn, returned or raised, changes no path but the check's script file, its `current.sh`, its `.prom.tmp` and its `.prom` |
| DynamicCheck.CheckLoopCounts | scripts/node/dynamic_check.py:176-187 | a loop that returns has counted the checks whose script exited 0 (Succeeded); one that raises names a path that cannot be written |
| DynamicCheck.CheckLoopPublishes | scripts/node/dynamic_check.py:176-187 | once check k's turn has returned, its `<name>.prom` holds its stdout (exit 0) or the error metric after every later turn, returned or raised, unless a later check's name is the same string (see Left out) |
| DynamicCheck.CheckLoopLinks | scripts/node/dynamic_check.py:176-187 | once check k's turn has returned, its `current.sh` links to its `name_hash.sh` after every later turn, unless a later check's name is the same string (see Left out) or a script file at that path |
| DynamicCheck.RaisedStays | scripts/node/dynamic_check.py:170-187 | once an exception has escaped, no later turn runs: the outcome stays as it was |
| DynamicCheck.FirstRaise | scripts/node/dynamic_check.py:170-187 | a loop that raised stopped at one turn f: every earlier turn returned, turn f raised, and the final state and path are those turn f left |
| DynamicCheck.LoopAdvance | scripts/node/dynamic_check.py:176-187 | turn i run on the state the first i turns left gives the fold's next outcome, with the count raised by one on exit 0 |
| DynamicCheck.FetchedRun | scripts/node/dynamic_check.py:170-204 | the part of `run` after a fetch on a state: the check loop, then the summary publication, with the state and the exit status or escaping error |
| DynamicCheck.StatusAfterExit | scripts/node/dynamic_check.py:189-204 | after the loop the run exits 0 exactly when the loop returned and the temporary status path can be written, and then `aami_status.prom` holds the summary; otherwise the loop's error and state escape, or those of the failed status write |
| DynamicCheck.StatusAfterKeeps | scripts/node/dynamic_check.py:189-196 | writing the summary leaves every other file the loop left |
| DynamicCheck.FetchedRunResults | scripts/node/dynamic_check.py:170-204 | a fetched run that exits 0 leaves the summary in `aami_status.prom` and each check's text (stdout on exit 0, else the error metric) in its `<name>.prom`, unless a later check's name is the same string or its name is the string `aami_status` (see Left out) |
| DynamicCheck.FileSystem.Exists | scripts/node/dynamic_check.py:251 | `Path.exists`: a regular file, or a link to one |
| DynamicCheck.FileSystem.IsSymlink | scripts/node/dynamic_check.py:259 | `Path.is_symlink`: the path is a link |
| DynamicCheck.FileSystem.WriteText | scripts/node/dynamic_check.py:255 | `write_text` succeeds unless the path is not writable, makes the path a regular file holding the text, and fails without change otherwise; a link at the path is replaced rather than written through (see Left out) |
| DynamicCheck.FileSystem.Rename | scripts/node/dynamic_check.py:290 | `rename` moves the entry onto the destination and replaces what was there |
| DynamicCheck.FileSystem.Unlink | scripts/node/dynamic_check.py:260 | `unlink` removes the file or the link at the path |
| DynamicCheck.FileSystem.SymlinkTo | scripts/node/dynamic_check.py:263 | `symlink_to` makes the path a link to the target, or fails without change |
| DynamicCheck.DynamicCheckRunner.SaveCheckScript | scripts/node/dynamic_check.py:242-265 | the new filesystem and the outcome are SaveScript's (see SaveScriptEffect); the returned path is `current.sh`; any exception names a path that cannot be written |
| DynamicCheck.DynamicCheckRunner.PublishText | scripts/node/dynamic_check.py:289-290 | writes the temporary file and renames it onto the final one, as Publish describes |
| DynamicCheck.DynamicCheckRunner.ExecuteCheck | scripts/node/dynamic_check.py:267-322 | the new filesystem and the result are CheckExecution's (see ExecuteCheckEffect); an escaping exception names the check's temporary result path |
| DynamicCheck.DynamicCheckRunner.WriteStatusMetrics | scripts/node/dynamic_check.py:331-372 | when the temporary path can be written, `aami_status.prom` holds the six-gauge text, with status 1 exactly when `success`, the temporary file is gone and nothing else changes; otherwise nothing changes; the new state is exactly Publish of that text |
| DynamicCheck.DynamicCheckRunner.RunChecks | scripts/node/dynamic_check.py:170-187 | the new state is CheckLoop over all checks from the old state: the checks are saved and executed in order until a write raises; it raises exactly when the fold does, with the fold's path, which cannot be written; otherwise success counts the checks whose script exited 0 and success plus failed equals the number of checks (CheckLoopPublishes, CheckLoopLinks and FirstRaise say which `.prom` files and links that state holds) |
| DynamicCheck.DynamicCheckRunner.RunCheck | scripts/node/dynamic_check.py:178-187 | the new state and the outcome are exactly one CheckStep from the old state: save the script, then execute it through `current.sh`; a failed save or result write propagates with its path, which cannot be written; otherwise the check counts as a success exactly when the k-th execution of its `current.sh` exited with status 0 |
| DynamicCheck.DynamicCheckRunner.FetchEffectiveChecks | scripts/node/dynamic_check.py:206-240 | the record loop builds exactly FetchChecks of the response |
| DynamicCheck.DynamicCheckRunner.ReportNoChecks | scripts/node/dynamic_check.py:148-150 | an early exit writes a status-0 summary with zero counts and returns 1 |
| DynamicCheck.DynamicCheckRunner.RunFetched | scripts/node/dynamic_check.py:170-204 | the new state and the outcome are FetchedRun's: the check loop, and when it returned the status publication; an escaping exception names a path that cannot be written; an exit is status 0, whatever the checks did, with the summary of status 1, total = the number of checks, and success and failed from the loop in `aami_status.prom` |
| DynamicCheck.DynamicCheckRunner.Run | scripts/node/dynamic_check.py:146-204 | exit status is 0 or 1; it is 1 exactly when there is no server URL or the fetch fails, and both of those cases write a zero-count status-0 summary and change nothing else; after a fetch the new state and outcome are FetchedRun's for the fetched checks, and an exit 0 leaves RunSummary in `aami_status.prom` |
| JobTypes.Duration | services/config-server/internal/pkg/jobmanager/types.go:39-47 | 0 before the start; `now - start` while running; `end - start` once ended |
| JobTypes.DefaultConfig | services/config-server/internal/pkg/jobmanager/types.go:73-80 | 5 workers, a TTL of one hour, a cleanup every 5 minutes and a queue of 100 |
| JobTypes.TerminalStatuses | services/config-server/internal/pkg/jobmanager/types.go:20-22 | IsTerminal holds exactly for completed, failed and cancelled; pending and running are not terminal |
| JobTypes.DurationOfEndedJob | services/config-server/internal/pkg/jobmanager/types.go:43-46 | an ended job's duration does not depend on the current time, and is non-negative when it did not end before it started |
| JobMemoryStore.StatusMatches | services/config-server/internal/pkg/jobmanager/memory_store.go:194-201 | true exactly when the status occurs in the list |
| JobMemoryStore.Insert | services/config-server/internal/pkg/jobmanager/memory_store.go:98-103 | insertion adds exactly the one job to the multiset |
| JobMemoryStore.InsertSorted | services/config-server/internal/pkg/jobmanager/memory_store.go:98-103 | insertion into a sequence sorted by creation time keeps it sorted |
| JobMemoryStore.SortJobs | services/config-server/internal/pkg/jobmanager/memory_store.go:98-103 | the sort yields a permutation of the matches, ordered newest first or, with `OldestFirst`, oldest first |
| JobMemoryStore.PageLength | services/config-server/internal/pkg/jobmanager/memory_store.go:106-115 | the page is no longer than the matches, empty when the offset reaches their count, no longer than a positive limit, and everything when neither offset nor limit applies |
| JobMemoryStore.SliceKeeps | services/config-server/internal/pkg/jobmanager/memory_store.go:110-114 | a window of the sorted matches stays sorted and free of repeats |
| JobMemoryStore.WindowKeeps | services/config-server/internal/pkg/jobmanager/memory_store.go:105-114 | the page after the offset and limit of a sorted list without repeats is sorted, without repeats, drawn from the list, and exactly as long as the page length says |
| JobMemoryStore.MemoryStore.constructor | services/config-server/internal/pkg/jobmanager/memory_store.go:17-21 | a new store is empty |
| JobMemoryStore.MemoryStore.Save | services/config-server/internal/pkg/jobmanager/memory_store.go:24-35 | an existing ID gives ErrJobAlreadyExists and leaves the store unchanged; otherwise the job is stored under its ID and nothing else changes |
| JobMemoryStore.MemoryStore.Get | services/config-server/internal/pkg/jobmanager/memory_store.go:38-48 | a stored ID returns its job; a missing ID returns ErrJobNotFound |
| JobMemoryStore.MemoryStore.Update | services/config-server/internal/pkg/jobmanager/memory_store.go:51-61 | a missing ID gives ErrJobNotFound and no change; otherwise only that job is replaced |
| JobMemoryStore.MemoryStore.Delete | services/config-server/internal/pkg/jobmanager/memory_store.go:64-74 | a missing ID gives ErrJobNotFound and no change; otherwise only that ID is removed |
| JobMemoryStore.MemoryStore.Matching | services/config-server/internal/pkg/jobmanager/memory_store.go:83-95 | the filter loop yields every stored job that passes the type and status filters, once each |
| JobMemoryStore.MemoryStore.List | services/config-server/internal/pkg/jobmanager/memory_store.go:77-118 | only stored jobs that pass the filters, without repeats, sorted by creation time in the requested order, as many as PageLength allows for the number of matches; the page is the window at the offset and limit of the sorted list of exactly the matching jobs |
| JobMemoryStore.MemoryStore.GetRunningByType | services/config-server/internal/pkg/jobmanager/memory_store.go:143-154 | either a stored pending or running job of that type, or nil, and nil only when no such job exists |
| JobMemoryStore.MemoryStore.DeleteExpired | services/config-server/internal/pkg/jobmanager/memory_store.go:157-176 | removes exactly the terminal jobs that ended before the cutoff, keeps the others unchanged, and returns how many it removed |
| JobMemoryStore.MemoryStore.Count | services/config-server/internal/pkg/jobmanager/memory_store.go:179-183 | the number of stored jobs |
| JobMemoryStore.MemoryStore.Close | services/config-server/internal/pkg/jobmanager/memory_store.go:186-191 | every job is dropped |
| JobMemoryStore.SaveThenGet | services/config-server/internal/pkg/jobmanager/memory_store.go:24-48 | a saved job reads back equal, and saving the same ID again is refused |
| FederationShard.Validate | internal/federation/shard.go:280-300 | no error exactly when the name, the nodes and the storage path are non-empty and the port is in 1..65535; each broken requirement yields its own error, and there are at most four |
| FederationShard.NodeMap | internal/federation/shard.go:328-334 | after the inner loop, the node map holds exactly the earlier nodes and the shard's nodes |
| FederationShard.CheckNodes | internal/federation/shard.go:328-334 | the inner loop reports NodeErrors and leaves NodeMap |
| FederationShard.CheckShard | internal/federation/shard.go:310-334 | one outer iteration appends StepErrors and enters the shard's name, port and nodes into the seen-maps |
| FederationShard.ValidateAll | internal/federation/shard.go:303-338 | the loops compute AllErrors, the errors of the shards scanned in order |
| FederationShard.SeenAllKeys | internal/federation/shard.go:306-334 | after the scan, the seen-maps hold exactly the names, ports and nodes of all shards |
| FederationShard.NodeErrorsEmptyIff | internal/federation/shard.go:328-334 | the inner loop reports nothing exactly when the shard's nodes are distinct and none was already assigned |
| FederationShard.StepErrorsEmptyIff | internal/federation/shard.go:310-334 | one shard adds no error exactly when it is valid and its name, port and nodes are new |
| FederationShard.ConsistentSnoc | internal/federation/shard.go:310-334 | a federation is consistent exactly when its earlier shards are and the last shard is valid and new |
| FederationShard.ValidateAllEmptyIff | internal/federation/shard.go:303-338 | ValidateAll returns no error exactly when every shard is valid and no name, port or node is used twice |
| FederationShard.StepErrorsKept | internal/federation/shard.go:312-333 | an error appended while scanning a shard is still in the final list |
| FederationShard.ValidateAllKeepsShardErrors | internal/federation/shard.go:312 | every error of every shard's own Validate is reported |
| FederationShard.ValidateAllReportsDuplicateName | internal/federation/shard.go:315-318 | a name used by an earlier shard is reported as a duplicate |
| FederationShard.ValidateAllReportsPortConflict | internal/federation/shard.go:321-325 | a port used by an earlier shard is reported as a conflict against the later shard |
| FederationShard.NodeErrorsReport | internal/federation/shard.go:328-332 | a node already in the map is reported as a conflict |
| FederationShard.ValidateAllReportsNodeConflict | internal/federation/shard.go:328-334 | a node assigned to an earlier shard is reported against each later shard that lists it |
| FederationShard.ValidateAllEmpty | internal/federation/shard.go:303-338 | no shards, no errors |
| FederationShard.Moves | internal/federation/shard.go:401-407 | one move per node, in order |
| FederationShard.MovesMembers | internal/federation/shard.go:402-406 | each generated move goes from the source to the destination and moves one of the source's nodes |
| FederationShard.Steps | internal/federation/shard.go:401 | the innermost loop runs at most as many times as the source has nodes |
| FederationShard.DestScanSensible | internal/federation/shard.go:394-410 | every move of the destination loop is sensible (see SuggestRebalanceSensible) |
| FederationShard.SourceScanSensible | internal/federation/shard.go:390-412 | every move of the source loop is sensible |
| FederationShard.SuggestRebalance | internal/federation/shard.go:376-415 | `SuggestRebalance` as written; the SuggestRebalance lemmas state its properties and the finding below its flaw |
| FederationShard.SuggestRebalanceSensible | internal/federation/shard.go:387-407 | every suggested move takes a node of a shard above target = total / len to a different shard below the target |
| FederationShard.SuggestRebalanceSmall | internal/federation/shard.go:377-379 | one shard or none gives no suggestions |
| FederationShard.SuggestRebalanceLoops | internal/federation/shard.go:376-415 | the loops compute SuggestRebalance |
| FederationShard.SourceLoop | internal/federation/shard.go:390-412 | the outer loop computes SourceScan |
| FederationShard.CountNodes | internal/federation/shard.go:382-385 | the first loop counts every node assignment |
| FederationShard.DestinationLoop | internal/federation/shard.go:394-410 | the loop over destinations computes DestScan |
| FederationShard.FirstMoves | internal/federation/shard.go:401-407 | the innermost loop moves the first `min(count, len)` nodes of the source |
| FederationShard.LopsidedTarget | internal/federation/shard.go:387 | the example federation's target is 1 |
| FederationShard.SuggestRebalanceRepeatsNode | internal/federation/shard.go:394-409 | as written, one overloaded shard with nodes x, y, z and two empty shards gives the suggestions "move x to b" and "move x to c": the same node twice |
| FederationShard.DestScanFixed | internal/federation/shard.go:394-410 | the corrected destination loop moves no more nodes than the source has |
| FederationShard.GiveFixed | internal/federation/shard.go:399-408 | one corrected destination moves no more nodes than the source has |
| FederationShard.MovedNodesConcat | internal/federation/shard.go:402 | the moved nodes of two move lists concatenate |
| FederationShard.MovedNodesOfMoves | internal/federation/shard.go:401-407 | the moves of a node list move exactly that list |
| FederationShard.GiveFixedPrefix | internal/federation/shard.go:399-408 | each corrected destination extends the moved prefix of the source's nodes |
| FederationShard.DestScanFixedTakesPrefix | internal/federation/shard.go:394-410 | with the correction, one source's moves take a prefix of its nodes, in order |
| FederationShard.SourceScanFixedDistinct | internal/federation/shard.go:390-412 | with the correction, the moved nodes are distinct and belong to the scanned shards |
| FederationShard.SuggestRebalanceFixedDistinct | internal/federation/shard.go:387-407 | with the correction, no node is suggested twice when every node belongs to exactly one shard |
| FederationShard.SuggestRebalanceFixedOnLopsided | internal/federation/shard.go:387-407 | on the example, the corrected loops move x to b and y to c |
| FederationManager.NodeNames | internal/federation/manager.go:80 | the node names, one per node, in order |
| FederationManager.RecommendShardCount | internal/federation/manager.go:126-139 | 1 shard under 100 nodes, 2 under 300, 3 under 500, 5 under 1000, and nodes / 200 (at least 5) from 1000 on; never less than 1 |
| FederationManager.EffectiveCount | internal/federation/manager.go:55-57 | a positive requested count is used as given; zero or negative falls back to the recommendation |
| FederationManager.StartClosed | internal/federation/manager.go:59-82 | shard i's nodes start at `i * (n / k) + min(i, n % k)` |
| FederationManager.StartBounds | internal/federation/manager.go:79 | every shard's slice ends inside the node list |
| FederationManager.StartAll | internal/federation/manager.go:65-83 | the last shard ends at the end of the node list, so no node is left over |
| FederationManager.CountPlan | internal/federation/manager.go:62-85 | the plan has exactly k shards |
| FederationManager.ShardsByCount | internal/federation/manager.go:53-86 | `calculateShardsByCount` computes CountPlan of the node names with the effective shard count |
| FederationManager.FillShards | internal/federation/manager.go:59-85 | the shard loop computes CountPlan |
| FederationManager.AssignNodes | internal/federation/manager.go:79-82 | the inner loop takes up to `count` consecutive node names from `nodeIndex` on |
| FederationManager.CountPlanLayout | internal/federation/manager.go:66-71 | shard i is named shard-(i+1), listens on port 9091+i, stores under `/var/lib/aami/prometheus-shard-(i+1)` and keeps 7 days |
| FederationManager.CountPlanSizes | internal/federation/manager.go:74-77 | each shard holds n / k nodes, plus one for each of the first n % k shards, so any two sizes differ by at most one |
| FederationManager.CountPlanCoversNodes | internal/federation/manager.go:65-83 | read shard by shard, the plan lists every node exactly once and in the input order |
| FederationManager.CountPlanPrefix | internal/federation/manager.go:65-83 | the first i shards hold exactly the first Start(i) nodes |
| FederationManager.RackGroupsSpec | internal/federation/manager.go:93-99 | the grouping holds exactly the racks of the nodes (a missing `rack` label counts as "default"), each with that rack's node names in order |
| FederationManager.NamesOnRackEmpty | internal/federation/manager.go:93-99 | a rack with no nodes gets no names |
| FederationManager.GroupByRack | internal/federation/manager.go:91-99 | the grouping loop computes RackGroups |
| FederationManager.RackNamesDiffer | internal/federation/manager.go:106 | different racks give different shard names |
| FederationManager.ShardsByRack | internal/federation/manager.go:89-123 | one shard per rack, holding that rack's nodes, with the ports 9091.. in walk order and distinct, sorted strictly by name, whatever order the map walk takes |
| FederationManager.SortedRackPlan | internal/federation/manager.go:117-120 | sorting the walked shards by name yields the rack plan |
| FederationManager.PermutedBuilt | internal/federation/manager.go:117-120 | a permutation of the walked shards still holds one shard per rack and the same ports |
| FederationManager.BuiltStep | internal/federation/manager.go:104-115 | one more rack walked adds its shard on the next port |
| FederationManager.BuiltDistinct | internal/federation/manager.go:104-115 | the walked shards have pairwise different names and ports |
| FederationManager.WalkShards | internal/federation/manager.go:104-115 | one shard per walked rack |
| FederationManager.WalkBuilt | internal/federation/manager.go:104-115 | a walk visiting every rack once builds one shard per rack, the k-th on port 9091+k |
| FederationManager.BuildRackShards | internal/federation/manager.go:102-115 | the map walk builds one shard per rack |
| FederationManager.CalculateShards | internal/federation/manager.go:36-50 | no nodes gives no shards; the "rack" strategy gives the rack plan; any other strategy gives the count plan |
| SlurmClient.ParseTimeLimit | internal/slurm/client.go:525-561 | "" and "UNLIMITED" are no limit (0) |
| SlurmClient.TimeLimitWithDays | internal/slurm/client.go:531-560 | "D-rest" is D days plus the clock part; with a clock part that starts with a digit, that is D * 86400 plus parseTimeLimit of the rest |
| SlurmClient.TimeLimitWithoutDays | internal/slurm/client.go:538-560 | text without '-' is read as a clock part alone |
| SlurmClient.ClockParts | internal/slurm/client.go:542 | "H:M:S", "M:S" and "M" split into their numerals |
| SlurmClient.ClockForms | internal/slurm/client.go:545-555 | three parts are hours, minutes and seconds; two are minutes and seconds; one is minutes |
| SlurmClient.TimeLimitClockForms | internal/slurm/client.go:525-561 | "H:M:S" is H*3600+M*60+S seconds, "M:S" is M*60+S, and a bare "M" is M minutes |
| SlurmClient.GpuCount | internal/slurm/client.go:563-581 | what `parseGPUCount` returns; GpuCountOfEntries states it entry by entry |
| SlurmClient.ParseGpuCount | internal/slurm/client.go:563-581 | `parseGPUCount` computes GpuCount: 0 for "" and "(null)", otherwise the count of the first GPU entry |
| SlurmClient.FirstGpuEntry | internal/slurm/client.go:569-580 | the entry loop returns the count of the first entry that starts with "gpu" and has a ':'; with no such entry it returns 0 |
| SlurmClient.EntryCountPlain | internal/slurm/client.go:570-576 | "gpu:N" counts N GPUs; an entry that does not start with "gpu" counts none |
| SlurmClient.EntryCountTyped | internal/slurm/client.go:568-576 | "gpu:TYPE:N" counts N GPUs, taking the last field |
| SlurmClient.FirstGpuEntryWins | internal/slurm/client.go:569-577 | entries before the first GPU entry are skipped; the first GPU entry decides the count |
| SlurmClient.GpuCountOfEntries | internal/slurm/client.go:563-581 | comma-joined entries are read entry by entry; "" and "(null)" count no GPUs |
| SlurmClient.ParseNodeOutput | internal/slurm/client.go:356-403 | the node is the fold of its `key=value` fields over an empty node, and it is an error exactly when no node name was found |
| SlurmClient.NodeTokens | internal/slurm/client.go:359-396 | the token loop applies each token in order |
| SlurmClient.NodeTokenParts | internal/slurm/client.go:360-364 | a "key=value" token applies that key and value; the value may hold further '=' |
| SlurmClient.NodeStateBeforeFlags | internal/slurm/client.go:369-370 | the node state is the value up to its first '+' ("IDLE+DRAIN" is "IDLE") |
| SlurmClient.NodeNullValuesIgnored | internal/slurm/client.go:385-392 | "(null)" features and reasons leave the node unchanged; other values are taken, and features are split at ',' |
| SlurmClient.OtherKeysKeepName | internal/slurm/client.go:366-395 | only the NodeName key sets the name |
| SlurmClient.NoNameNoNode | internal/slurm/client.go:398-400 | output without a "NodeName=" token keeps the empty name, so it is an error |
| SlurmClient.JobFoldAppend | internal/slurm/client.go:184-249 | folding tokens by lines is folding all of them in order |
| SlurmClient.ParseScontrolJobOutput | internal/slurm/client.go:180-256 | the job is the fold of every line's trimmed fields over an empty job, and it is an error exactly when the job ID is missing or 0 |
| SlurmClient.JobLines | internal/slurm/client.go:184-249 | the line loop folds each trimmed line's fields |
| SlurmClient.JobLine | internal/slurm/client.go:186-248 | the token loop of one line applies its tokens in order |
| SlurmClient.JobTokenParts | internal/slurm/client.go:187-195 | a "key=value" token applies that key and value; "JobId=v" sets the ID to the number in v |
| SlurmClient.JobFieldRules | internal/slurm/client.go:198-243 | user and group are the text before '(', the exit code is the number before ':', and "(null)" features change nothing |
| SlurmClient.TokensWithoutEquals | internal/slurm/client.go:187-190 | a token without '=' is skipped by both parsers |
| UpgradeChecker.DigitRun | internal/upgrade/checker.go:223 | `\d+` matches all digits of the maximal leading run, and no digit follows it |
| UpgradeChecker.ParseVersion | internal/upgrade/checker.go:216-250 | the original text is kept; an unmatched version yields all-zero, empty and invalid fields; a valid one has non-negative numbers and a one-line prerelease |
| UpgradeChecker.ParseFullForm | internal/upgrade/checker.go:220-249 | "M.m.p[-pre]", with or without a leading "v", parses to exactly those numbers and that prerelease |
| UpgradeChecker.MatchFullOf | internal/upgrade/checker.go:223-224 | the long pattern matches the long form and captures its numbers and prerelease |
| UpgradeChecker.ParseShortForm | internal/upgrade/checker.go:226-238 | "M.m[-pre]" parses to those numbers with patch 0 |
| UpgradeChecker.MatchShortOf | internal/upgrade/checker.go:228-229 | the short pattern matches the short form and captures its numbers and prerelease |
| UpgradeChecker.ShortIsNotFull | internal/upgrade/checker.go:223-226 | a short-form text never matches the long pattern, so the short pattern is the one that decides |
| UpgradeChecker.NumberDotOf | internal/upgrade/checker.go:223 | `(\d+)\.` reads a numeral and what follows the dot |
| UpgradeChecker.NumberOf | internal/upgrade/checker.go:223 | `(\d+)` reads a numeral up to the first non-digit |
| UpgradeChecker.DigitRunOf | internal/upgrade/checker.go:223 | the digit run of a numeral followed by a non-digit is the numeral |
| UpgradeChecker.PrereleaseOf | internal/upgrade/checker.go:223 | `(?:-(.+))?$` captures the prerelease of its own text |
| UpgradeChecker.NumberSome | internal/upgrade/checker.go:223 | a matched number was read from a numeral at the front of the text |
| UpgradeChecker.NumberDotSome | internal/upgrade/checker.go:223 | a matched `(\d+)\.` was read from a numeral and a dot at the front |
| UpgradeChecker.SuffixOf | internal/upgrade/checker.go:223 | a matched prerelease suffix is exactly "" or "-" + the capture |
| UpgradeChecker.MatchFullSome | internal/upgrade/checker.go:223-224 | any text the long pattern matches is the long form of the numerals it reads |
| UpgradeChecker.MatchShortSome | internal/upgrade/checker.go:228-229 | any text the short pattern matches is the short form of the numerals it reads |
| UpgradeChecker.ParseValidForm | internal/upgrade/checker.go:216-250 | a valid parse means the text after "v" was of the long or the short form, with the numbers read from its numerals; so ParseVersion accepts exactly these two forms |
| UpgradeChecker.IsNewer | internal/upgrade/checker.go:253-274 | `IsNewer` of two versions; IsNewerIsAbove states the order it decides |
| UpgradeChecker.IsNewerIsAbove | internal/upgrade/checker.go:253-274 | IsNewer holds exactly for two valid versions in the lexicographic order of major, minor and patch, where a release is above a prerelease of the same numbers |
| UpgradeChecker.IsNewerIrreflexive | internal/upgrade/checker.go:253-274 | no version is newer than itself |
| UpgradeChecker.IsNewerAsymmetric | internal/upgrade/checker.go:253-274 | of two versions at most one is newer than the other |
| UpgradeChecker.IsNewerTransitive | internal/upgrade/checker.go:253-274 | IsNewer is transitive |
| UpgradeChecker.VersionString | internal/upgrade/checker.go:277-282 | String renders the long form "M.m.p", followed by "-pre" when there is a prerelease |
| UpgradeChecker.ParseVersionString | internal/upgrade/checker.go:216-282 | parsing String's text gives back the numbers and the prerelease |
| Upgrader.RunLength | internal/upgrade/upgrader.go:389-400 | the leading run of non-separators stops at a space, a tab, a newline or the end |
| Upgrader.Words | internal/upgrade/upgrader.go:384-405 | every field is non-empty and holds no space, tab or newline |
| Upgrader.RunLengthOf | internal/upgrade/upgrader.go:389-400 | the run of a field followed by a separator is the field |
| Upgrader.WordsOfRun | internal/upgrade/upgrader.go:390-399 | a field followed by a separator is one field, and the fields of the rest follow |
| Upgrader.SplitFields | internal/upgrade/upgrader.go:384-405 | the character loop with its in-field flag yields exactly the maximal separator-free runs, left to right |
| Upgrader.WordsSkip | internal/upgrade/upgrader.go:390-395 | leading separators start no field |
| Upgrader.WordsOfField | internal/upgrade/upgrader.go:401-403 | a text without separators is a single field |
| Upgrader.ExtractChecksum | internal/upgrade/upgrader.go:375-382 | the first field, or the whole data when it has no field |
| Upgrader.ChecksumLine | internal/upgrade/upgrader.go:376-380 | from "checksum  filename", the checksum is extracted |
| Upgrader.ContainsSubstring | internal/upgrade/upgrader.go:361-368 | true exactly when the text occurs in s at some position |
| Upgrader.ContainsText | internal/upgrade/upgrader.go:357-359 | the length check and the equality short cut do not change the answer: true exactly when sub occurs in s |
| Upgrader.IsChecksumBySuffix | internal/upgrade/upgrader.go:370-373 | a name is a checksum file exactly when it ends in .sha256, .sha512, .md5 or .sum |
| Upgrader.ExtBySuffix | internal/upgrade/upgrader.go:371 | for an extension without inner dots, `filepath.Ext` equals it exactly when the name ends in it |
| Upgrader.BackupRoundTrip | internal/upgrade/upgrader.go:307-310 | a backup made for version v has the ".backup" extension, so it is listed, and it reads back as v (the name is made at upgrader.go line 98 and listed at line 284) |
| Upgrader.ListRollbacks | internal/upgrade/upgrader.go:299-315 | as written, the listing succeeds exactly when every backup name is long enough to slice, and then gives each backup's version in order; otherwise it is the source's panic |
| Upgrader.ShortBackupPanics | internal/upgrade/upgrader.go:307-310 | a stray "x.backup" in the rollback directory is listed, because its extension is ".backup", and its name is too short to slice: the listing panics (listed by the extension test at upgrader.go line 284) |
| Upgrader.VersionOfBackupFixed | internal/upgrade/upgrader.go:307-310 | corrected: a version is read only from a name of the form "aami-" + v + ".backup", and gives that v |
| Upgrader.ListRollbacksFixed | internal/upgrade/upgrader.go:305-312 | the corrected loop computes RollbacksFixed, skipping names it cannot read |
| Upgrader.BackupRoundTripFixed | internal/upgrade/upgrader.go:307-310 | corrected: every backup this upgrader makes reads back as its version (names as made at upgrader.go line 98) |
| Upgrader.RollbacksFixed | internal/upgrade/upgrader.go:305-312 | the corrected rollback listing; RollbacksFixedOfBackups states it |
| Upgrader.RollbacksFixedOfBackups | internal/upgrade/upgrader.go:299-315 | corrected: listing the backups made for versions vs yields vs, in order |
| Bootstrap.BootstrapToken.constructor | services/config-server/internal/domain/bootstrap.go:80-94 | a new token has the given name, limit, expiry and token text, no uses and no labels |
| Bootstrap.BootstrapToken.RemainingUses | services/config-server/internal/domain/bootstrap.go:56-62 | never negative; 0 exactly when the uses reached the limit; otherwise uses + remaining = limit |
| Bootstrap.BootstrapToken.IncrementUses | services/config-server/internal/domain/bootstrap.go:46-53 | a usable token gains exactly one use and a new update time; otherwise the token is unchanged and the error is returned; no other field changes |
| Bootstrap.CanUseIff | services/config-server/internal/domain/bootstrap.go:25-43 | IsValid is CanUse, and a token can be used exactly when the clock has not passed its expiry and it has uses left |
| Bootstrap.UseUntilExhausted | services/config-server/internal/domain/bootstrap.go:30-62 | a fresh token with limit n, used before its expiry, accepts exactly n uses; it then has no uses left, is neither usable nor valid, and refuses the next use |
| Alert.IsValidSeverity | services/config-server/internal/domain/alert.go:26-33 | a severity is valid exactly when it names critical, warning or info |
| Alert.Merge | services/config-server/internal/domain/alert.go:86-124 | the copy loops into fresh maps compute Merged; the receiver is not changed |
| Alert.Merged | services/config-server/internal/domain/alert.go:86-124 | what `Merge` computes; MergedKeys, MergedAssociative, MergedIdentity and MergedIdempotent state it |
| Alert.MergedKeys | services/config-server/internal/domain/alert.go:86-124 | the merge keeps the keys of both sides; other's labels, annotations and template variables win, the receiver's other entries are kept, and other's duration wins when it is non-empty |
| Alert.MergedAssociative | services/config-server/internal/domain/alert.go:86-124 | merging is associative |
| Alert.MergedIdentity | services/config-server/internal/domain/alert.go:86-124 | the empty configuration is the identity of merging on both sides |
| Alert.MergedIdempotent | services/config-server/internal/domain/alert.go:86-124 | merging a configuration with itself changes nothing |
| Alert.CopyStrings | services/config-server/internal/domain/alert.go:61-64 | the copy loop converts every label to a JSON string and adds no other entry |
| Alert.ToMap | services/config-server/internal/domain/alert.go:52-83 | ToMap computes TemplateData |
| Alert.TemplateDataShape | services/config-server/internal/domain/alert.go:52-83 | "for_duration" is present exactly for a non-empty duration or a template variable of that name; every template variable is present as given and wins; labels and annotations are present exactly when non-empty or supplied as variables; there are no other keys |
| Alert.MergeWith | services/config-server/internal/domain/alert.go:207-245 | without a parent, the rule itself; with one, a copy without the deletion time whose configuration is the rule's own under "override" and the parent's merged with the rule's otherwise |
| Alert.MergeWithParent | services/config-server/internal/domain/alert.go:236-242 | under "override", the parent does not matter; otherwise the child's entries win, the parent's other labels are kept, the label keys are the union, and an empty parent configuration leaves the child's configuration unchanged |
| Alert.NewAlertRuleFromTemplate | services/config-server/internal/domain/alert.go:258-288 | the template's fields are copied; the override becomes the configuration; the rule is enabled, with strategy "merge" and priority 0; the template's ID and name are recorded; both timestamps are now |
| Alert.FromTemplateMerges | services/config-server/internal/domain/alert.go:276-278 | a rule fresh from a template merges its parent's configuration under its own override (the merge itself is alert.go line 241) |
| CheckSetting.Setting.MergeWith | services/config-server/internal/domain/check_setting.go:25-53 | without a parent, the setting itself; with one, a new setting with the child's ID, group, type, strategy and priority, zero timestamps and MergedConfig |
| CheckSetting.Setting.GetConfigValue | services/config-server/internal/domain/check_setting.go:65-68 | a value is found exactly when the key is present, and it is the stored one |
| CheckSetting.Setting.SetConfigValue | services/config-server/internal/domain/check_setting.go:71-77 | afterwards the key reads back as the value, every other key reads as before, the update time is now, and no other field changes |
| CheckSetting.MergedConfigProperties | services/config-server/internal/domain/check_setting.go:39-50 | under "override", exactly the child's configuration; otherwise every key of either side, with the child's value winning and the parent's kept elsewhere; an empty parent gives the child's configuration under any strategy |
| CheckSetting.MergedConfigChain | services/config-server/internal/domain/check_setting.go:43-49 | merging down a chain of groups is associative |
| ScriptPolicy.DeepCopy | services/config-server/internal/domain/script_policy.go:212-240 | the copy equals the original value, nested objects and arrays included |
| ScriptPolicy.PutAllCopies | services/config-server/internal/domain/script_policy.go:70-77 | copying every entry of the source over the destination gives their union with the source winning |
| ScriptPolicy.MergeConfig | services/config-server/internal/domain/script_policy.go:66-80 | the merged keys are those of the default and the override config; an override value wins, a default value survives where there is no override |
| ScriptPolicy.ScopeIdentifier | services/config-server/internal/domain/script_policy.go:84-96 | "global" for global scope, "group:" and the group ID (or "unknown") for group scope, "unknown" for any other scope |
| ScriptPolicy.Validate | services/config-server/internal/domain/script_policy.go:99-139 | no error exactly when every required field is present and the scope agrees with the group ID; an error names one of the policy's fields, and the first missing field or the scope mismatch is the one reported |
| ScriptPolicy.ScopeIdentifierInjective | services/config-server/internal/domain/script_policy.go:84-96 | for valid policies the scope identifier determines the scope and the group ID |
| ScriptPolicy.NewFromTemplate | services/config-server/internal/domain/script_policy.go:162-208 | the template's fields with copies of its default config and the override, the given scope and group, priority 0, active, the template's ID, name and version recorded and both timestamps now |
| ScriptPolicy.FromTemplateValid | services/config-server/internal/domain/script_policy.go:99-139 | a policy built from a complete template is valid exactly when its scope and group agree |
| CheckInstance.MergeConfig | services/config-server/internal/domain/check_instance.go:73-87 | the merged keys are those of the default and the override config; an override value wins, a default value survives where there is no override |
| CheckInstance.ScopeIdentifier | services/config-server/internal/domain/check_instance.go:91-108 | "global"; "namespace:" or "group:" followed by the ID (or "unknown"); "unknown" for any other scope |
| CheckInstance.ValidateScope | services/config-server/internal/domain/check_instance.go:137-158 | no error exactly when the scope is global with no IDs, namespace with a namespace ID only, or group with both IDs; a group instance missing its group ID is reported before a missing namespace ID |
| CheckInstance.Validate | services/config-server/internal/domain/check_instance.go:111-161 | no error exactly when every required field is present and the scope is consistent; a missing field is reported as "<field> is required" before any scope problem |
| CheckInstance.ScopeIdentifierDetermines | services/config-server/internal/domain/check_instance.go:91-108 | for valid instances the scope identifier determines the scope and the namespace or group ID it names |
| CheckInstance.NewFromTemplate | services/config-server/internal/domain/check_instance.go:183-231 | the template's fields with copies of both configs, the given scope and IDs, priority 0, active, the template's ID, name and version recorded and both timestamps now |
| ScriptPolicyService.ValidateScopeConsistency | services/config-server/internal/service/script_policy.go:391-416 | no error exactly when the scope is global with no IDs, namespace with a namespace ID only, or group with both; the errors are the same as those of the check-instance scope check |
| ScriptPolicyService.NamespaceScopeMismatch | services/config-server/internal/service/script_policy.go:397-404 | a namespace-scoped policy passes the service's scope check but never the script policy's own validation |
| ScriptPolicyService.ConfigOrEmpty | services/config-server/internal/service/script_policy.go:77-80 | a missing config becomes the empty object, a given one is kept |
| ScriptPolicyService.PriorityOrDefault | services/config-server/internal/service/script_policy.go:82-85 | priority 0 becomes 100, any other priority is kept, so the result is never 0 |
| ScriptPolicyService.DefaultsIdempotent | services/config-server/internal/service/script_policy.go:77-85 | applying the config and priority defaults twice is applying them once |
| ScriptPolicyService.LookupFailure | services/config-server/internal/service/script_policy.go:48-55 | a lookup that did not find its row is a foreign-key violation, and only such a lookup is; any other lookup error is returned as it is |
| ScriptPolicyService.ReferenceFailure | services/config-server/internal/service/script_policy.go:47-65 | no error exactly when every namespace or group the request names is found; otherwise the namespace lookup's failure comes first, then the group's, each mapped as a lookup failure |
| ScriptPolicyService.Stored | services/config-server/internal/service/script_policy.go:93-101 | success exactly when the insert and the read-back by ID both succeed, and the result is then the row read back; an insert or read-back error is returned unchanged |
| ScriptPolicyService.TemplatePolicy | services/config-server/internal/service/script_policy.go:76-90 | the policy inserted from a template carries the template's fields and origin, the request's scope and group, the defaulted config and priority, the new ID and the request's activity flag |
| ScriptPolicyService.CreateFromTemplate | services/config-server/internal/service/script_policy.go:41-101 | a scope error is returned as it is; then a failing namespace, group or template lookup, in that order, gives its mapped failure; otherwise the result is storing the template policy; a foreign-key violation arises only from a lookup that did not find its row |
| ScriptPolicyService.DirectPolicy | services/config-server/internal/service/script_policy.go:131-162 | the policy inserted directly carries the request's fields, both configs and the priority defaulted, the new ID, no template origin and an empty hash |
| ScriptPolicyService.CreateDirect | services/config-server/internal/service/script_policy.go:105-173 | the same scope check and reference lookups with the same errors; otherwise the result is storing the direct policy; a foreign-key violation arises only from a reference lookup that did not find its row |
| ScriptPolicyService.DirectPolicyHasNoHash | services/config-server/internal/service/script_policy.go:148-163 | a directly created policy fails the domain validation with "hash is required" |
| TargetRepository.StringMapValue | services/config-server/internal/repository/target.go:39-45 | a nil label map is stored as the empty object, any other map as it is |
| TargetRepository.DomainMetadata | services/config-server/internal/repository/target.go:96-101 | exactly the string-valued entries of the stored metadata survive, with their values |
| TargetRepository.ToDomainMetadata | services/config-server/internal/repository/target.go:96-101 | the loop keeps exactly the string-valued entries |
| TargetRepository.ToModelMetadata | services/config-server/internal/repository/target.go:62-65 | the loop stores every metadata value as a JSON string |
| TargetRepository.MetadataRoundTrip | services/config-server/internal/repository/target.go:62-101 | storing metadata and reading it back gives it unchanged; reading a stored column and storing it again keeps exactly its string entries |
| TargetRepository.InstanceKey | services/config-server/internal/repository/target.go:427-432 | the template ID when the policy has one, otherwise its name and script type joined by ":" |
| TargetRepository.DedupFacts | services/config-server/internal/repository/target.go:404-413 | the first-wins filter keeps only instances of its input whose keys were not seen, pairwise different in key, and afterwards every input key is seen |
| TargetRepository.DedupFirst | services/config-server/internal/repository/target.go:404-413 | the first instance with a new key is the one kept, and no other instance with that key is |
| TargetRepository.GlobalInstances | services/config-server/internal/repository/target.go:361-386 | every global instance is returned in query order and all their keys are marked seen |
| TargetRepository.GroupInstances | services/config-server/internal/repository/target.go:390-424 | the first-wins filter over the groups' instances, in group order |
| TargetRepository.AddInstances | services/config-server/internal/repository/target.go:405-413 | one group's instances pass through the filter as if appended to everything seen before |
| TargetRepository.GetEffectivePolicies | services/config-server/internal/repository/target.go:325-358 | a target without groups is not found; otherwise the global instances as given and the group instances filtered starting from the global keys |
| TargetRepository.EffectiveKeysUnique | services/config-server/internal/repository/target.go:342-413 | no kept group instance shares a key with a global instance or with another kept one, and every group instance's key is covered |
| Pagination.NewPagination | services/config-server/internal/action/common.go:10-24 | the page is at least 1 and the limit between 1 and 100; a page below 1 becomes 1, a limit below 1 becomes 20 and one above 100 becomes 100, values in range are kept |
| Pagination.NewPaginationIdempotent | services/config-server/internal/action/common.go:10-24 | clamping parameters that are already clamped changes nothing |
| Pagination.TotalPagesCeiling | services/config-server/internal/action/common.go:37-40 | for a count and a positive limit the page count is the ceiling of the count over the limit: the last page is non-empty and all items fit |
| Pagination.NewListResult | services/config-server/internal/action/common.go:36-48 | the items, page, limit and total as given, with the page count of the total |
| PaginationDto.PaginationRequest.constructor | services/config-server/internal/api/dto/common.go:17-20 | a request holds the page and limit it is given |
| PaginationDto.PaginationRequest.Normalize | services/config-server/internal/api/dto/common.go:31-41 | the request's fields become the clamped parameters of the action layer; a request already in range is unchanged |
| PaginationDto.PaginationRequest.ToAction | services/config-server/internal/api/dto/common.go:44-46 | the clamped action-layer parameters of the request |
| PaginationDto.DefaultPagination | services/config-server/internal/api/dto/common.go:23-28 | a new request for page 1 of 20 |
| PaginationDto.NormalizeTwice | services/config-server/internal/api/dto/common.go:31-41 | normalising twice leaves the request as normalising once does |
| PaginationDto.NewPaginationResponse | services/config-server/internal/api/dto/common.go:57-68 | the request's page and limit, the total, and its page count |
| Exporter.IsValidType | services/config-server/internal/domain/exporter.go:42-49 | true exactly for node_exporter, dcgm_exporter, all_smi and custom |
| Exporter.DefaultPortForType | services/config-server/internal/domain/exporter.go:93-106 | always a port in 1..65535, and 9090 for an unknown type |
| Exporter.DefaultPortsDistinct | services/config-server/internal/domain/exporter.go:93-106 | the four known types have pairwise different default ports |
| Exporter.OrDefault | services/config-server/internal/domain/exporter.go:80-88 | a set field is kept, an empty one takes the default |
| Exporter.Exporter.Validate | services/config-server/internal/domain/exporter.go:73-90 | an unknown type is reported first, then a port outside 1..65535, and then nothing changes; otherwise no error, the empty path, interval and timeout become "/metrics", "15s" and "10s", and no other field changes |
| Exporter.ValidateTwice | services/config-server/internal/domain/exporter.go:73-90 | validating a second time gives the same verdict as the first, and after an accepted first call every defaulted field is set |
| Exporter.Endpoint | services/config-server/internal/domain/exporter.go:68-70 | `GetEndpoint`: the scrape URL on the address; EndpointDetermines states what it determines |
| Exporter.EndpointDetermines | services/config-server/internal/domain/exporter.go:68-70 | on one address, the endpoint of an exporter with a valid port and a path starting with "/" determines its port and its path |
| NvLink.ConnectionOf | internal/nvlink/collector.go:174-189 | always a connection type: an "NV" prefix gives NV, PIX, PXB, PHB, SYS and X give themselves, anything else gives "-" |
| NvLink.NormalizeConnection | internal/nvlink/collector.go:172-190 | the trimmed, upper-cased entry is always normalised to a connection type |
| NvLink.NormalizeIdempotent | internal/nvlink/collector.go:172-190 | normalising a normalised entry changes nothing |
| NvLink.TopologyRow | internal/nvlink/collector.go:161-165 | a row holds exactly one normalised entry per GPU |
| NvLink.TopologyLine | internal/nvlink/collector.go:144-165 | one output line keeps the matrix n-by-n |
| NvLink.Topology | internal/nvlink/collector.go:144-166 | the lines in order keep the matrix n-by-n |
| NvLink.EmptyMatrix | internal/nvlink/collector.go:137-140 | n rows of n empty entries |
| NvLink.ParseTopologyOutput | internal/nvlink/collector.go:135-168 | the empty n-by-n matrix with the output's lines applied in order |
| NvLink.TopologyLines | internal/nvlink/collector.go:144-166 | the loop applies every line in order |
| NvLink.ApplyTopologyLine | internal/nvlink/collector.go:145-165 | one loop step is one line applied |
| NvLink.NormalizedRow | internal/nvlink/collector.go:161-164 | the filled row is the normalised fields after the "GPUi" field |
| NvLink.FillRow | internal/nvlink/collector.go:161-164 | entry i of the row is field i + 1 normalised |
| NvLink.IgnoredLines | internal/nvlink/collector.go:145-159 | a line that is not a GPU row, names a GPU at or past the count, or has too few fields changes nothing |
| NvLink.TopologyShape | internal/nvlink/collector.go:135-168 | the parsed matrix is n-by-n with entries empty or connection types, and a row no line names keeps its entries |
| NvLink.Capability | internal/nvlink/collector.go:202-216 | NVLink pairs read, write and have atomics; PIX and PXB pairs read and write only; all other pairs get none |
| NvLink.ParseP2PMatrix | internal/nvlink/collector.go:193-221 | the capability of every pair i < j whose entry exists, in row order |
| NvLink.RowLoop | internal/nvlink/collector.go:197-219 | the inner loop appends row i's pairs right of the diagonal |
| NvLink.RowPairsFacts | internal/nvlink/collector.go:197-219 | row i of a full matrix lists the columns after its diagonal in order, each with its entry |
| NvLink.PairsSound | internal/nvlink/collector.go:196-221 | every listed pair of a full matrix is a pair gpu1 < gpu2 < n with the capability of its own entry |
| NvLink.PairsComplete | internal/nvlink/collector.go:196-221 | every pair a < b < n of a full matrix is listed |
| NvLink.PairsOrdered | internal/nvlink/collector.go:196-221 | the pairs are listed in strictly increasing order, so no pair twice |
| NvLink.CountStatus | internal/nvlink/collector.go:297-305 | the links in a status are at most all links |
| NvLink.CountNVLink | internal/nvlink/collector.go:308-313 | the NVLink pairs are at most all pairs |
| NvLink.NodeTopology.constructor | internal/nvlink/collector.go:58-84 | a topology holds the node's links and pairs with zero counters |
| NvLink.NodeTopology.CalculateLinkStats | internal/nvlink/collector.go:292-318 | the total is the links plus the NVLink pairs, the active count the active links plus the NVLink pairs, the errors the links in error, so active never exceeds total and the errors never exceed the links that are not active; nothing else changes |
| NvLink.ActiveAndErrorsBounded | internal/nvlink/collector.go:297-305 | active and error links together are at most all links |
| CliDiff.NodeChangedFacts | internal/cli/diff.go:318-332 | only the IP and SSH settings count: names and labels are ignored, the comparison is symmetric, a node never differs from itself, and nodes that do not differ agree on everything but name and labels |
| CliDiff.NameMap | internal/cli/diff.go:285-290 | the map's keys are the list's names, and each name maps to a node of the list with that name |
| CliDiff.NameMapLastWins | internal/cli/diff.go:285-290 | a name maps to the last node of the list with that name |
| CliDiff.BuildNameMap | internal/cli/diff.go:285-290 | the indexing loop builds the name map of the list |
| CliDiff.Collect | internal/cli/diff.go:293-313 | a result loop lists exactly the map's nodes whose names pass the test, each name once, in an order left open |
| CliDiff.CompareNodes | internal/cli/diff.go:281-316 | added are exactly the new nodes with names not in the old list, removed the old nodes with names not in the new list, changed the new nodes whose settings differ from the old node of the same name; no list names a node twice, no name is in two lists, and a list compared with itself gives nothing |
| CliDiff.NamesClassified | internal/cli/diff.go:281-316 | every name of either list is added, removed, changed, or in both lists unchanged |
| CliNodes.ParseLabels | internal/cli/nodes.go:386-398 | an empty argument gives no labels; otherwise the comma-separated pairs applied in order |
| CliNodes.LabelLoop | internal/cli/nodes.go:391-396 | the loop applies every pair in order |
| CliNodes.PairWithoutEquals | internal/cli/nodes.go:392-395 | a pair without "=" adds nothing |
| CliNodes.PairWithEquals | internal/cli/nodes.go:392-395 | a pair "k=v" splits at the first "=" and sets the trimmed key to the trimmed value, replacing an earlier value of that key |
| CliNodes.EmptyLabels | internal/cli/nodes.go:388-396 | splitting the empty argument would also give no labels |
| CliNodes.LabelKeys | internal/cli/nodes.go:391-396 | every label key is the trimmed key of some pair of the argument |
| CliNodes.FindNode | internal/cli/nodes.go:411-418 | nothing is found exactly when no node has the name; otherwise the first node with the name |
| CliNodes.HasNode | internal/cli/nodes.go:368-375 | the duplicate scan is true exactly when some node has the name |
| CliNodes.AddNodesFromFile | internal/cli/nodes.go:340-383 | the nodes of the accepted lines are appended to the configuration in line order, and the count is the number appended |
| CliNodes.AddLines | internal/cli/nodes.go:349-381 | the lines of the node file applied in order; AddLinesAppends and AddLinesDistinct state it |
| CliNodes.AddLinesAppends | internal/cli/nodes.go:349-381 | the nodes already there stay as a prefix, and every appended node has the default SSH settings and no labels |
| CliNodes.AddLinesDistinct | internal/cli/nodes.go:368-381 | adding never gives two nodes the same name |
| CliNodes.SkippedLines | internal/cli/nodes.go:350-358 | blank lines, "#" lines, lines of fewer than two fields and names already present add nothing |
| CliNodes.AcceptedLine | internal/cli/nodes.go:355-379 | a line "name ip" with a new name appends exactly that node |
| CliNodes.Without | internal/cli/nodes.go:200-207 | the nodes left when every node of the name is dropped; WithoutFacts states it |
| CliNodes.WithoutFacts | internal/cli/nodes.go:200-207 | no node with the name remains, every other node does, and the list is shorter exactly when some node had the name |
| CliNodes.FilterOut | internal/cli/nodes.go:197-207 | the loop keeps the other nodes in order and reports whether any node had the name |
| CliNodes.RemoveNode | internal/cli/nodes.go:191-214 | with no node of the name, the error "node <name> not found" and the configuration unchanged; otherwise every node of the name is removed and the rest kept in order |
| SshRetry.Pow2 | internal/ssh/retry.go:40 | a power of two is at least 1 |
| SshRetry.Pow2Monotone | internal/ssh/retry.go:40 | a larger exponent never gives a smaller power |
| SshRetry.Backoff | internal/ssh/retry.go:38-45 | the wait is the base times 2 to the attempt, or the cap when that is larger, so it never exceeds the cap |
| SshRetry.BackoffGrows | internal/ssh/retry.go:38-45 | with a non-negative base the wait never shrinks from one attempt to a later one, and below the cap it doubles each attempt |
| SshRetry.IsNonRetryable | internal/ssh/retry.go:48-75 | a nil error is not a non-retryable error, so a successful attempt is never treated as a stop; an error stops the retries only when its message matches an authentication pattern or the exit-status text (AuthFailureAnyCase, ExitStatusStops) |
| SshRetry.AuthFailureAnyCase | internal/ssh/retry.go:55-67 | a message holding an authentication failure in any letter case is not retried |
| SshRetry.ExitStatusStops | internal/ssh/retry.go:69-72 | a message holding "Process exited with status" is not retried |
| SshRetry.RunWithRetry | internal/ssh/retry.go:10-35 | the loop returns what the retry definition gives: the result and the number of calls made |
| SshRetry.RetryFacts | internal/ssh/retry.go:13-34 | at most the configured number of calls; every attempt before the last failed with a retryable error and no wait before it was interrupted; the result is the last attempt's unless a cancelled wait ended the loop |
| SshRetry.RetryExhausted | internal/ssh/retry.go:13-34 | without interruptions and with retryable errors throughout, every configured attempt runs and the last error is returned |
| SshRetry.RetryFirstAttempt | internal/ssh/retry.go:13-34 | a success or a final error on the first attempt returns after one call; with no retries configured nothing runs and the zero result is returned |
| Registry.ClusterRegistry.constructor | internal/multicluster/registry.go:26-31 | a new registry at the given path holds no clusters |
| Registry.ClusterRegistry.Add | internal/multicluster/registry.go:102-120 | an empty name, an empty endpoint or a registered name is refused with its message and the map unchanged; otherwise the cluster is stored under its name, nothing else changes, and the save's outcome is returned |
| Registry.ClusterRegistry.Update | internal/multicluster/registry.go:123-133 | an unknown name is refused with the map unchanged; otherwise only that entry is replaced |
| Registry.ClusterRegistry.Remove | internal/multicluster/registry.go:136-146 | an unknown name is refused with the map unchanged; otherwise only that entry is dropped |
| Registry.ClusterRegistry.Get | internal/multicluster/registry.go:149-190 | a cluster is found exactly when `Exists` holds for its name, and it is the registered one |
| Registry.ClusterRegistry.Count | internal/multicluster/registry.go:176-181 | the number of registered names |
| Registry.ClusterRegistry.List | internal/multicluster/registry.go:158-173 | every registered cluster exactly once, as many as the count, in strictly increasing name order |
| Registry.ClusterRegistry.Collected | internal/multicluster/registry.go:164-167 | the collection loop lists each registered cluster once |
| Registry.ClusterRegistry.SetLabel | internal/multicluster/registry.go:208-224 | an unknown name is refused; otherwise exactly that label of that cluster is set and nothing else changes |
| Registry.ClusterRegistry.RemoveLabel | internal/multicluster/registry.go:227-242 | an unknown name is refused; otherwise exactly that label of that cluster is dropped |
| Registry.ClusterRegistry.Rename | internal/multicluster/registry.go:245-267 | an empty new name, an unknown old name or a registered new name is refused with the map unchanged; otherwise the old key goes and the new key holds the entry with the new name |
| Registry.ClusterRegistry.Clear | internal/multicluster/registry.go:270-276 | no clusters remain |
| Registry.ClusterRegistry.Import | internal/multicluster/registry.go:279-291 | the clusters with a name and an endpoint are stored in list order, replacing registered ones; the rest are skipped |
| Registry.Imported | internal/multicluster/registry.go:283-288 | what `Import` leaves in the map; ImportedFacts and ImportedLastWins state it |
| Registry.ImportedFacts | internal/multicluster/registry.go:283-288 | after an import a name is registered exactly when it was before or some acceptable listed cluster has it, and a registered cluster the list does not name is kept |
| Registry.ImportedLastWins | internal/multicluster/registry.go:283-288 | the last acceptable listed cluster of a name is the one stored |
| BackupRestore.ShouldRestore | internal/backup/restore.go:107-141 | a path is restored exactly when it is not metadata.yaml, passes the config-only and data-only filters, and a target directory is set or it lies under config/ or data/; the destination is the target directory joined with the path, or the config or data directory joined with the rest of the path, and empty when not restored |
| BackupRestore.FiltersExclusive | internal/backup/restore.go:109-123 | config-only and data-only together restore nothing, and metadata.yaml is never restored |
| BackupRestore.ConfigDestination | internal/backup/restore.go:131-133 | without a target directory, config/<rel> lands at <config directory>/<rel> |
| BackupRestore.Restore | internal/backup/restore.go:70-104 | the loop's outcome is the tally of the archive's entries in order |
| BackupRestore.Tally | internal/backup/restore.go:70-104 | the entry loop of `Restore`; TallyFacts and TallyReadError state it |
| BackupRestore.TallyFacts | internal/backup/restore.go:70-104 | a restore that reads the whole archive succeeds exactly when no file failed, counts every file once as restored, skipped or failed, and a dry run has no failures |
| BackupRestore.TallyReadError | internal/backup/restore.go:75-77 | a read error anywhere fails the whole restore with "read tar: " and the error |
| BackupRestore.ParseSimpleYaml | internal/backup/restore.go:309-331 | the content's lines, split at newlines, applied in order as "key: value" entries |
| BackupRestore.YamlLoop | internal/backup/restore.go:313-328 | the loop applies every line in order |
| BackupRestore.SkippedYamlLine | internal/backup/restore.go:315-322 | blank lines, "#" lines and lines without ":" add nothing |
| BackupRestore.EntryLine | internal/backup/restore.go:319-327 | a line "key: value" splits at the first ":" with both sides trimmed and sets the key, replacing an earlier value |
| RuleFiles.GroupIdRoundTrip | services/config-server/internal/pkg/prometheus/file_manager.go:166-173 | the ID read from a base name is `id` exactly when the name is "group-<id>.yml", so naming a file and reading its ID are inverse (the name is made by getFilePath, file_manager.go lines 258-260) |
| RuleFiles.ListedOne | services/config-server/internal/pkg/prometheus/file_manager.go:166-173 | the rule file of a group whose ID holds no "/" is listed under that ID (the path is made by getFilePath, file_manager.go lines 258-260) |
| RuleFiles.FileNameSlashFree | services/config-server/internal/pkg/prometheus/file_manager.go:259 | a rule file name holds a "/" only when the group ID does |
| RuleFiles.RuleFilePaths | services/config-server/internal/pkg/prometheus/file_manager.go:258-260 | one rule file path per group, in order |
| RuleFiles.ListedRuleFiles | services/config-server/internal/pkg/prometheus/file_manager.go:164-175 | listing the rule files of some groups gives back their IDs in order, when no ID holds a "/" |
| RuleFiles.ListedIdsNamed | services/config-server/internal/pkg/prometheus/file_manager.go:164-175 | no more IDs than paths, and every listed ID comes from a path whose base name is that ID's rule file name |
| RuleFiles.BackedUp | services/config-server/internal/pkg/prometheus/file_manager.go:185-213 | a backup never changes the rules directory |
| RuleFiles.LatestBackup | services/config-server/internal/pkg/prometheus/file_manager.go:284-307 | a found backup is a backup of that group, and none is found only when the group has no backup |
| RuleFiles.RestoreResurrectsDeletedFile | services/config-server/internal/pkg/prometheus/file_manager.go:107-118 | as written: a group with no rule file but an old backup gets the old file back when a new write fails validation (the restore is file_manager.go lines 278-321) |
| RuleFiles.TempDiffers | services/config-server/internal/pkg/prometheus/file_manager.go:93 | the temp file is a different path from the rule file |
| RuleFiles.WrittenAsSource | services/config-server/internal/pkg/prometheus/file_manager.go:79-127 | `WriteRuleFile` as the source has it, with the restore of the latest backup after a failed validation; RestoreResurrectsDeletedFile shows its flaw |
| RuleFiles.Written | services/config-server/internal/pkg/prometheus/file_manager.go:79-127 | the corrected write, without the restore; WrittenFacts states it |
| RuleFiles.WrittenFacts | services/config-server/internal/pkg/prometheus/file_manager.go:79-127 | a write succeeds exactly when the temp write, the validation when on and the rename succeed, and then the rule file holds the content and the temp file is gone; a failed write leaves the rule file and every other path as they were, and removes the temp file once written; a backup is added exactly when backups are on, the file existed and the copy worked |
| RuleFiles.WrittenTwice | services/config-server/internal/pkg/prometheus/file_manager.go:79-127 | writing the same content again after a successful write leaves the rules directory as it is |
| RuleFiles.Deleted | services/config-server/internal/pkg/prometheus/file_manager.go:130-153 | `DeleteRuleFile`; DeletedFacts states it |
| RuleFiles.DeletedFacts | services/config-server/internal/pkg/prometheus/file_manager.go:130-153 | deleting a missing file succeeds and changes nothing; a successful delete removes only the group's file; a failed removal leaves the files as they were; a second delete after a successful one is a no-op |
| RuleFiles.RuleFileManager.constructor | services/config-server/internal/pkg/prometheus/file_manager.go:33-76 | the backup directory defaults to ".backup" under the rules directory, and validation stays on only when a promtool path is given or promtool is on the PATH |
| RuleFiles.RuleFileManager.GetFilePath | services/config-server/internal/pkg/prometheus/file_manager.go:253-260 | under a non-empty rules directory, "<dir>/group-<id>.yml" |
| RuleFiles.RuleFileManager.BackupRuleFile | services/config-server/internal/pkg/prometheus/file_manager.go:185-213 | a copy of the group's file is appended to the backups when backups are on, the file exists and the copy works; otherwise nothing changes |
| RuleFiles.RuleFileManager.WriteRuleFile | services/config-server/internal/pkg/prometheus/file_manager.go:79-127 | the new state and the error are those of the write through the temp file and the rename, without the restore |
| RuleFiles.RuleFileManager.DeleteRuleFile | services/config-server/internal/pkg/prometheus/file_manager.go:130-153 | the new state and the error are those of the delete |
| RuleFiles.RuleFileManager.ListRuleFiles | services/config-server/internal/pkg/prometheus/file_manager.go:156-176 | a failed glob gives "failed to list files: " and its error; otherwise the IDs read from the globbed paths, in glob order |
| RuleGenerator.EnabledRulesFacts | services/config-server/internal/service/prometheus_rule_generator.go:85-101 | the kept rules are exactly the listed rules that are enabled and not deleted, and there are never more of them than were listed |
| RuleGenerator.EnabledRulesConcat | services/config-server/internal/service/prometheus_rule_generator.go:93-98 | the filter keeps the repository's order: filtering a concatenation concatenates the filtered parts |
| RuleGenerator.GetEnabledRules | services/config-server/internal/service/prometheus_rule_generator.go:85-101 | a listing error is reported as the failure to list alert rules; otherwise the enabled, undeleted rules in order |
| RuleGenerator.LabelsAndAnnotations | services/config-server/internal/service/prometheus_rule_generator.go:226-253 | the labels hold "severity", "group_id" and every config label, a config label winning; the annotations hold "summary" (the rule's name), "description" and every config annotation, a config annotation winning |
| RuleGenerator.BuildLabels | services/config-server/internal/service/prometheus_rule_generator.go:226-238 | the base labels overwritten by the config's labels |
| RuleGenerator.BuildAnnotations | services/config-server/internal/service/prometheus_rule_generator.go:241-253 | the base annotations overwritten by the config's annotations |
| RuleGenerator.Converted | services/config-server/internal/service/prometheus_rule_generator.go:206-223 | what `convertToPrometheusRule` returns; ConvertedFacts states it |
| RuleGenerator.ConvertedFacts | services/config-server/internal/service/prometheus_rule_generator.go:206-223 | a rule converts exactly when its query renders; the result is named "<name>_Group_<group>", carries the rendered query and the rule's own duration or else the default one, and its own config labels win over the defaults', both over the base labels |
| RuleGenerator.ConvertRule | services/config-server/internal/service/prometheus_rule_generator.go:206-223 | the conversion by rendering, merging the configs and building labels and annotations |
| RuleGenerator.ConvertibleEmpty | services/config-server/internal/service/prometheus_rule_generator.go:104-121 | no more rules come out than go in, and none comes out exactly when no query renders |
| RuleGenerator.ConvertibleSound | services/config-server/internal/service/prometheus_rule_generator.go:104-121 | every rule that comes out is the conversion of a rule that went in |
| RuleGenerator.ConvertibleAll | services/config-server/internal/service/prometheus_rule_generator.go:104-121 | when every query renders nothing is skipped, and the i-th rule out is the conversion of the i-th rule in |
| RuleGenerator.ConvertRules | services/config-server/internal/service/prometheus_rule_generator.go:104-121 | the rules that convert, in order, or the no-valid-rules error when none does |
| RuleGenerator.Generated | services/config-server/internal/service/prometheus_rule_generator.go:39-82 | `GenerateRulesForGroup` from the repositories' answers to the file effect of the corrected write; GeneratedFacts states it |
| RuleGenerator.GeneratedFacts | services/config-server/internal/service/prometheus_rule_generator.go:39-82 | with the corrected write, a failed generation leaves the group's rule file as it was, and a lookup or listing failure touches nothing; a successful one removes the file of a group without enabled rules, and otherwise leaves in it the marshalled group of the converted rules |
| RuleGenerator.PrometheusRuleGenerator.DeleteRulesForGroup | services/config-server/internal/service/prometheus_rule_generator.go:195-203 | the file manager's delete, its error wrapped as a delete failure |
| RuleGenerator.PrometheusRuleGenerator.GenerateRulesForGroup | services/config-server/internal/service/prometheus_rule_generator.go:39-82 | the new rules directory and the error are those of the generation: group lookup, enabled rules (a delete when there are none), conversion, marshalling of "group_<name>_<id>", write |
| SlurmCli.FormatDuration | internal/cli/slurm.go:604-619 | `formatDuration`; FormatSeconds, FormatMinutes, FormatHours and FormatDays state each range |
| SlurmCli.FormatSeconds | internal/cli/slurm.go:605-607 | under a minute: the whole seconds truncated toward zero, between 0 and 59 for a non-negative duration, and "0s" for anything strictly between minus one and one second |
| SlurmCli.FormatMinutes | internal/cli/slurm.go:608-610 | under an hour: "<m>m" for the whole minutes m, between 1 and 59, with m minutes at most the duration and m+1 more |
| SlurmCli.FormatHours | internal/cli/slurm.go:611-615 | under a day: "<h>h<m>m" for the whole hours h (1 to 23) and the whole minutes m past them (0 to 59) |
| SlurmCli.FormatDays | internal/cli/slurm.go:611-619 | from a day on: "<d>d<h>h" for the whole days d (at least 1) and the whole hours h past them (0 to 23) |
| SlurmCli.Truncate | internal/cli/slurm.go:622-627 | `truncate`; TruncateFacts states what it keeps |
| SlurmCli.TruncateFacts | internal/cli/slurm.go:622-627 | a truncated string is never longer than the limit; a string within the limit is kept; a longer one keeps its first limit-3 characters and ends in "..." at exactly the limit; truncating twice is truncating once |
| SlurmCli.NodesCell | internal/cli/slurm.go:438-441 | the node-list cell of the job table; NodesCellTruncates states its bounds |
| SlurmCli.NodesCellTruncates | internal/cli/slurm.go:438-441 | the node-list cell is the comma-joined node list truncated to 20: at most 20 characters, the whole list when it fits, otherwise its first 17 characters and "..." |
| OutputFormatter.FormatHeader | cli/internal/output/formatter.go:203-217 | the one-pass loop builds the header: the first character upper-cased, then each later character upper-cased and preceded by a space when it is an upper-case letter |
| OutputFormatter.PiecesNoLower | cli/internal/output/formatter.go:207-214 | no ASCII lower-case letter survives after the first character |
| OutputFormatter.PiecesOfLower | cli/internal/output/formatter.go:207-214 | a run without upper-case letters is only upper-cased, with no spaces added |
| OutputFormatter.Header | cli/internal/output/formatter.go:203-217 | what `formatHeader` builds; HeaderOfCamelCase and HeaderFacts state it |
| OutputFormatter.HeaderOfCamelCase | cli/internal/output/formatter.go:203-217 | the header of a camel-case name is its words upper-cased and separated by single spaces ("MaxUses" gives "MAX USES") |
| OutputFormatter.HeaderFacts | cli/internal/output/formatter.go:203-217 | a header holds no ASCII lower-case letter, and a name with no upper-case letter after its first character is only upper-cased |
| OutputFormatter.FormatSlice | cli/internal/output/formatter.go:230-243 | the loop over at most the first three items gives the slice cell |
| OutputFormatter.FormatValue | cli/internal/output/formatter.go:219-276 | `formatValue`; FormatValueFacts states it |
| OutputFormatter.FormatValueFacts | cli/internal/output/formatter.go:219-276 | a string of more than 50 characters becomes its first 47 and "...", so no string cell is longer than 50; a slice shows at most three items and "..." when it has more; an empty map shows nothing and a non-empty one "(N items)"; a boolean shows "true" or "false"; a pointer what it points to |

## Left out

- Network, subprocesses and filesystem: the HTTP fetch, subprocess runs, SSH sessions, `promtool`, globbing and file reads are not performed. Each is an oracle parameter, so the properties hold for every answer.
- The check runner's filesystem is an explicit state of files and links. A write or link to a path in a fixed set of unwritable paths raises. The rule-file manager's and the restore's writes fail as fault parameters say.
- DynamicCheck.PathJoin: joins a directory and a name as strings, with "/" between. pathlib's normalisation (dropping "." and empty segments and a trailing "/", and an absolute name replacing the directory) and the operating system's resolution of ".." are not modelled. Check names are in effect plain file names, and two names that differ as strings get different paths.
- DynamicCheck.ResultFileInjective: holds for the string-joined paths. Under pathlib, names such as "a" and "./a" share `a.prom`.
- DynamicCheck.CurrentLinkInjective: holds for the string-joined paths. Under pathlib, names such as "a" and "a/" share a script directory and its `current.sh`.
- DynamicCheck.StatusFileIsResultFile: holds for the string-joined paths. Under pathlib, "./aami_status" also writes `aami_status.prom`.
- DynamicCheck.ResultFileMisses: holds for check names that differ as strings. Under pathlib, "a" and "./a" write the same paths.
- DynamicCheck.CurrentLinkMisses: holds for check names that differ as strings. Under pathlib, "a" and "./a" write the same paths.
- DynamicCheck.CheckLoopPublishes: "a later check with the same name" means the same string. Under pathlib, a later "./a" also overwrites the result of "a".
- DynamicCheck.CheckLoopLinks: "a later check with the same name" means the same string. Under pathlib, a later "./a" also replaces the `current.sh` of "a".
- DynamicCheck.FetchedRunResults: "shares its name" and "named `aami_status`" compare strings. Under pathlib, "./a" shares the result file of "a", and "./aami_status" the status file.
- DynamicCheck.FileSystem.WriteText: a link at the path is replaced by a regular file. `Path.write_text` would write through the link to its target. The runner writes there only when a script file or a `.prom.tmp` path is itself a link.
- DynamicCheck.FileSystem.Rename: cannot fail. In the source a failing `rename` at scripts/node/dynamic_check.py:290 raises into the generic handler, which writes the error metric again; that path is not modelled.
- DynamicCheck.FileSystem.Unlink: cannot fail. A failing `unlink` at scripts/node/dynamic_check.py:260-262 is not modelled.
- GoStrings.IsSpace: accepts the ASCII white-space characters only. Go's `unicode.IsSpace`, behind `strings.Fields` and `strings.TrimSpace`, also accepts U+0085, U+00A0 and the other Unicode spaces.
- RuleGenerator.GeneratedFacts: is stated for generation with the corrected write `RuleFiles.Written`. With the write as the source has it (`RuleFiles.WrittenAsSource`), a failed validation restores the latest backup onto the file (services/config-server/internal/pkg/prometheus/file_manager.go:107-118), so a failed generation can change it, as `RuleFiles.RestoreResurrectsDeletedFile` shows.
- The clock: readings are integer parameters. `TimeUntilExpiry` (services/config-server/internal/domain/bootstrap.go:65-67) only reads the clock and is not modelled.
- Randomness: `GenerateToken` (services/config-server/internal/domain/bootstrap.go:70-77) is not modelled. The token text is a constructor parameter, so the constructor cannot fail.
- Directory setup: the Python runner's directory creation and `chmod` of saved scripts are not modelled. A saved script is modelled as written content only.
- The Python runner's logging is not modelled.
- Go's map iteration order is unspecified. The model picks an arbitrary order by choice (`:|`) and states its properties for every order. Sorting by name (`sort.Slice`) is modelled as a sort whose result is fixed by its keys.
- A Go nil map and an empty map are both the empty map here. For example, labels of nodes added from a file are nil in Go.
- Shared Go maps are copied values here. The registry's label maps and the merged config maps are treated as values, so aliasing between a caller's map and the stored one is not captured.
- Integers are unbounded. 64-bit overflow is not modelled, for example a backoff shift of a huge attempt number, `Atoi` out of range, or a huge duration.
- `time.Duration` values of the Slurm command are integer nanoseconds, and `d.Seconds()` and its kin become exact truncating divisions. The float64 rounding of very large durations is not modelled.
- Slurm client time limits are in seconds, not `time.Duration`.
- Slurm's node-list expansion (`expandNodeList`) and date parsing (`parseSlurmTime`) are parameters of the job parser.
- `bufio.Scanner` line-length limits are not modelled.
- String lengths count characters. Go's `len` counts bytes, so cuts and limits (the 50-character cell, the 20-character node list, `truncate`) agree only on ASCII text.
- GoStrings.ToLower / GoStrings.ToUpper: map ASCII letters only. Go's `strings.ToLower` and `strings.ToUpper` map every Unicode letter.
- SshRetry.IsNonRetryable: matches its patterns against the ASCII-lower-cased message. A message only Unicode lower-casing would match, such as "PERMİSSION DENIED" with U+0130, is retried here but would stop the retries in Go.
- `filepath.Join` is modelled as joining with "/" without `Clean`. `filepath.Base` and `filepath.Ext` use Go's rules on clean paths.
- Floating point is not modelled: `GetImbalance` (internal/federation/shard.go), NVLink bandwidth and throughput fields, and the health percentages.
- Regular expressions are not modelled. The NVLink status lines matched by regular expressions and `parseNVLinkStatus` (internal/nvlink/collector.go) are not modelled; link statuses are inputs of `CalculateLinkStats`.
- Template rendering (`RenderQuery`) and YAML and JSON marshalling are oracles.
- Repository lookups and every GORM query are oracles. Only the in-memory deduplication and conversions of services/config-server/internal/repository/target.go are modelled.
- `GetEffectiveChecksByTargetID` (services/config-server/internal/service/script_policy.go) is not modelled. It reads `result.NamespaceInstances` at line 250, which the repository's result type (global and group instances only) does not have.
- The namespace ID that services/config-server/internal/service/script_policy.go:88 passes to `NewScriptPolicyFromTemplate` is dropped. The domain constructor (services/config-server/internal/domain/script_policy.go:162-167) takes no namespace.
- `GenerateAllRules` (services/config-server/internal/service/prometheus_rule_generator.go:154-192) is not modelled. It walks a Go map over all groups, and its per-group step is `GenerateRulesForGroup`.
- Rule-file maintenance is not modelled: `CleanupOldBackups`, `ValidateRuleFile`, and the directory-creation errors of `NewRuleFileManager`.
- The texts of the domain errors (`ErrNoValidRules` and the rest) are not part of this model. They are distinct constructors of `RuleGenerator.GenError`.
- `GetByLabel`, `Load` and `Save` of the cluster registry are not modelled. The lock is left out too. The outcome of a save is the `saveErr` parameter.
- Backup restore's tar and gzip I/O is an oracle: a read error or the list of entries.
- `runNodesAdd` (internal/cli/nodes.go:103-150) is not modelled. It adds a single node from flags; the file path `addNodesFromFile` is modelled.
- `GetByType` of the exporters is not modelled.
- Backup timestamps have one-second resolution in the rule-file manager. Backups are an ordered list here, so two backups in the same second are not confused.
- The restore glob "group-<id>.*.yml" (services/config-server/internal/pkg/prometheus/file_manager.go:284) also matches backups of a group whose ID starts with "<id>.". `RuleFiles.LatestBackup` matches the group exactly.
- A validation failure's message carries "rule validation failed:" twice in the source, once from `validateRuleFileContent` and once from the wrapping. The model's text keeps both.
- RuleFiles.RuleFileManager.WriteRuleFile: does not restore a backup after a failed validation. It is the corrected write of the third finding below. `RuleFiles.RestoreResurrectsDeletedFile` states what the restore as written does.
- SlurmCli.Truncate: requires a limit of at least 3 when the string is longer than the limit, because the source's slice then goes out of range and panics.
- Pagination.NewListResult: requires a non-zero limit, because the source's ceiling division by the limit otherwise divides by zero. The same holds for `Pagination.TotalPagesCeiling` and `PaginationDto.NewPaginationResponse`.
- SshRetry.RunWithRetry: the context is an oracle saying whether each wait before a retry ends by cancellation. When the timer and the context are both ready, Go's `select` picks one at random; the oracle settles it.
- Upgrader.ListRollbacks: a Go panic on a short backup name is the result `None`.

## Findings

| source | as written | input that shows it | evidently intended | confidence | as-written member | corrected member |
|---|---|---|---|---|---|---|
| internal/federation/shard.go:394-409 | for every destination below the target, the moves take the overloaded shard's nodes from index 0 again, so the same node is suggested for several destinations | shard "a" with nodes x, y, z and empty shards "b" and "c" (target 1): the suggestions are x to b and x to c | each destination takes the next nodes not yet suggested, so no node is moved twice | not executed | FederationShard.SuggestRebalanceRepeatsNode | FederationShard.SuggestRebalanceFixedDistinct, FederationShard.SuggestRebalanceFixedOnLopsided |
| internal/upgrade/upgrader.go:307-310 | every file with extension ".backup" is listed, and its version is cut out by slicing off five leading and seven trailing characters; a shorter name slices out of range and panics | a stray file "x.backup" in the rollback directory | only names "aami-<version>.backup" are read as versions, and other files are skipped | not executed | Upgrader.ShortBackupPanics | Upgrader.VersionOfBackupFixed, Upgrader.BackupRoundTripFixed, Upgrader.RollbacksFixedOfBackups |
| services/config-server/internal/pkg/prometheus/file_manager.go:278-321 | after a failed validation the latest backup of the group is restored even when the group had no rule file before the write | backups on, validation on, no file for group "g", one old backup "old rules" of "g", and promtool rejecting the new content: the old file reappears | a failed write leaves the rules directory as it was, present or absent | not executed | RuleFiles.RestoreResurrectsDeletedFile | RuleFiles.WrittenFacts |

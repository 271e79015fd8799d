# party-client fleet manager, modelled in Dafny

This project models the core of party-client, a manager that keeps a fleet of Minecraft Bedrock server processes in line with a desired-state document in a GitHub repository.

- **The polling reconciler** (`internal/server/manager.go`):
  - `pollConfiguration` compares the repository's last commit with the one already applied.
  - `updateServers` stops servers that are no longer wanted, then starts or restarts the desired ones in order, under a `MaxInstances` cap.
  - `monitorServer` records a process exit, `GetStatus` reports on the fleet, and `Start` runs the loop.
- **What a server launch prepares**:
  - the port remapping;
  - `server.properties`, `permissions.json` and `whitelist.json`;
  - the command line.
- **The archive pipeline** of `initializeBedrockServer`: split a server archive into ten layers, join them again, check the result and extract it.
- **Settings loading** (`internal/config/config.go`):
  - `Load` with its branch precedence and zero-value defaults;
  - `readBranchFile` and its white-space trimming;
  - the per-server path helpers.

The modules follow the program's structure:

| file | module | what it holds |
|---|---|---|
| common.dfy | Common | `Option`, `Result`, `byte`, and the outcome of reading a file |
| configuration.dfy | Configuration | the settings and server records of config.go, `TrimSpace`, `ReadBranchFile`, `ApplyDefaults`, `Load`, the path helpers |
| provision.dfy | Provision | port remapping, `strconv.Itoa`, the properties map and its rendering, the two JSON documents, the launch plan |
| archive.dfy | Archive | the layer arithmetic, split, join, integrity check, clean-up, and the preparation as a whole |
| fleet.dfy | Fleet | the reconciler as functions over values: the fleet map, `Reconcile`, `Poll`, `RecordExit`, and the corrected definitions of the findings |
| fleet_properties.dfy | FleetProperties | what the reconciler guarantees, by induction over the desired list and over the ticks |
| findings.dfy | Findings | the four findings below: the behaviour as written, and the corrected definitions' properties |
| manager.dfy | ServerManager | class `Manager`, whose fields are changed in place by methods proved equal to the Fleet functions |

The manager's outside world enters as parameters:

- **Server starts:** a `Launcher`, given afresh with each tick, says for each server description whether `startServer` ends with a running process (and which) or gives up before tracking the server. It gives up when the directory cannot be made, the binary is missing, a generated file cannot be written, or the process does not start.
- **GitHub:** the two lookups arrive as `Result` values, one pair per tick.
- **Hashing:** SHA-256 is an arbitrary function from bytes to strings.
- **The YAML decoder** is an arbitrary partial function.
- **The filesystem** is a function from path to file-read outcome.

Each locked section of the Go code is one sequential step.

Three places where the model settles what the code leaves open or uses differently from how it reads:

- `ServerConfig` in `internal/config/config.go:30-35` has no `FirstRun` field, yet `manager.go:418` and `manager_test.go:15` use one. The model adds `firstRun: bool` to `ServerConfig`.
- `updateServers` stores `&serverConfig` of the loop variable. The model stores a value copy of that iteration's entry, which is what Go 1.22 and later give.
- `MinecraftServerConfig` declares `Seed`, `PvP`, `AllowFlight` and `Motd` (`internal/config/config.go:43-50`), but `createServerProperties` never writes them, and `level-seed` comes from `LevelSeed`. The model writes what the code writes.

## Model

| member | source | states |
|---|---|---|
| Configuration.TrimSpace | internal/config/config.go:82-83 | The result is a slice of the input taken after its leading white space (Unicode White_Space, as `unicode.IsSpace`). Everything cut off on either side is white space, and the result neither starts nor ends with white space. |
| Configuration.LeadingSpaces | internal/config/config.go:83 | Counts a prefix made only of white space, followed by a character that is not white space (or the end). |
| Configuration.TrailingSpaces | internal/config/config.go:83 | Counts a suffix made only of white space, preceded by a character that is not white space (or the start). |
| Configuration.TrimSpaceIdempotent | internal/config/config.go:82-83 | Trimming a trimmed string changes nothing. |
| Configuration.ReadBranchFile | internal/config/config.go:69-85 | Fails exactly when the read fails for a reason other than absence. A missing file gives "". Otherwise the result is the trimmed content. |
| Configuration.ConfigFilePath | internal/config/config.go:88-91 | `$CONFIG_PATH` when it is set (non-empty), otherwise "config.yaml". |
| Configuration.ApplyDefaults | internal/config/config.go:109-136 | Branch precedence: a non-empty branch file wins, then a non-empty config.yaml branch, then "main". Every defaulted field ends non-zero. The repository owner and name and the first-run flag are untouched. |
| Configuration.DefaultsOnlyReplaceZeroValues | internal/config/config.go:116-136 | For each of the seven fields, the result is the default of config.go when the field is "" or 0, and the field itself otherwise (negative numbers included). |
| Configuration.ApplyDefaultsIdempotent | internal/config/config.go:109-136 | Applying the defaults again, with the same branch or with none, changes nothing. |
| Configuration.Load | internal/config/config.go:87-139 | An unreadable settings file fails as unreadable, an unparsable one as unparsable. `Load` succeeds exactly when the file reads, parses, and the branch file does not fail. On success the value is the parsed settings with the defaults applied, using the branch file's value. |
| Configuration.GetServerDir | internal/config/config.go:141-143 | The server's name joined onto the base directory; its contract is `Configuration.ServerPathsLayout` and `Configuration.ServerPathsDistinct`. |
| Configuration.GetServerPropertiesPath | internal/config/config.go:145-147 | "server.properties" joined onto the server's directory; see `Configuration.ServerPathsLayout`. |
| Configuration.GetPermissionsPath | internal/config/config.go:149-151 | "permissions.json" joined onto the server's directory; see `Configuration.ServerPathsLayout`. |
| Configuration.GetWhitelistPath | internal/config/config.go:153-155 | "whitelist.json" joined onto the server's directory; see `Configuration.ServerPathsLayout`. |
| Configuration.ServerPathsLayout | internal/config/config.go:141-155 | Each server's directory is its name under the base directory, and its three files lie in that directory. A properties, a permissions and a whitelist path never coincide, whichever servers they belong to. |
| Configuration.ServerPathsDistinct | internal/config/config.go:141-155 | For names that are single clean path elements (non-empty, no '/', not "." or ".."), two servers share a directory exactly when they share a name, and different servers never share a generated file. |
| Configuration.IsSpace | internal/config/config.go:83 | The characters of Unicode's White_Space property, which `unicode.IsSpace` accepts and `strings.TrimSpace` cuts; `Configuration.TrimSpace` states what is trimmed. |
| Provision.RemapPort | internal/server/manager.go:516 | The internal port is the external port shifted by 20000 - 19132. |
| Provision.RemapPortKeepsOrder | internal/server/manager.go:516 | Remapping is injective and keeps order, and 19132 maps to 20000. |
| Provision.NatToString | internal/server/manager.go:569 | At least one character, all decimal digits, no leading zero. |
| Provision.NatToStringRoundTrip | internal/server/manager.go:569 | Reading the digits back gives the number. |
| Provision.Itoa | internal/server/manager.go:569 | Non-empty, and it starts with '-' exactly for negative numbers. After the optional sign comes the decimal numeral of the absolute value (`NatToString`), whose digits read back as that value. |
| Provision.ItoaInjective | internal/server/manager.go:569 | Different numbers are written differently. |
| Provision.FormatBool | internal/server/manager.go:658-667 | "true" exactly for true and "false" exactly for false, as `strconv.FormatBool`. |
| Provision.ServerProperties | internal/server/manager.go:653-689 | The keys are the 27 built-in keys plus the server's own. A key of the server's `properties` always carries its own value. Every other built-in key keeps its built-in value. |
| Provision.BuiltinValuesKept | internal/server/manager.go:654 | Unless overridden, `server-port` is the remapped port. |
| Provision.FixedValuesKept | internal/server/manager.go:659-683 | Unless overridden, each of the 11 constant keys keeps its constant value. |
| Provision.NameValuesKept | internal/server/manager.go:660-661 | Unless overridden, `server-name` is the server's name and `level-name` its world name. |
| Provision.RenderProperties | internal/server/manager.go:691-697 | Writes one line per key: the key order it uses lists every key exactly once, and the text is those `key=value` lines in that order. |
| Provision.Append | internal/server/manager.go:705-714 | Appending to a nil slice gives a one-element list, and to a list gives the list plus the element. |
| Provision.Permissions | internal/server/manager.go:700-721 | `null` exactly when there are no operators and no whitelisted players. Otherwise the operators come first as "operator", then the whitelisted players as "member", in list order, all with an empty XUID. |
| Provision.Whitelist | internal/server/manager.go:729-739 | `null` exactly when the whitelist is empty. Otherwise there is one entry per player, in order, with an empty XUID. |
| Provision.CreatePermissions | internal/server/manager.go:700-720 | The two append loops build exactly `Permissions(ops, whitelist)`. |
| Provision.CreateWhitelist | internal/server/manager.go:729-737 | The append loop builds exactly `Whitelist(whitelist)`. |
| Provision.WhitelistedPlayersAreMembers | internal/server/manager.go:713-737 | Every whitelisted player appears in both documents, under the same name, and as a "member" in permissions.json. |
| Provision.PlanLaunch | internal/server/manager.go:505-575 | The ports freed are the remapped port and 19133. The command runs the binary in use with `-port` set to the remapped port and with the server's directory, world and `logs` path. The three files go to the paths of config.go and hold exactly the properties map, the permissions document and the whitelist document of the server. The properties are also copied to `server.properties` in the binary's directory (`filepath.Dir` of its path), and the process runs in that directory. |
| Provision.SharedPropertiesCopy | internal/server/manager.go:545-574 | Two servers with different clean names have different properties files, but the copy beside the binary is the same file for both, in the directory both processes run in, so each start overwrites the previous start's copy. |
| Provision.PropertiesPortMatchesCommand | internal/server/manager.go:652-689 | The properties file carries the same port as `-port` unless `properties` overrides `server-port`, in which case it carries the override. |
| Archive.LayerStart | internal/server/manager.go:209-227 | A layer's start never passes the end, and every layer but the last starts at a multiple of `size / 10`. |
| Archive.SplitArchive | internal/server/manager.go:193-247 | Exactly ten layers, numbered 0 to 9. Layers 0 to 8 hold `size / 10` bytes and layer 9 also holds `size % 10`. Each layer is the matching slice of the archive. |
| Archive.JoinLayers | internal/server/manager.go:260-284 | Succeeds exactly when all ten layers exist, and then gives them joined in index order. Otherwise it names the first missing layer. |
| Archive.VerifyIntegrity | internal/server/manager.go:295-318 | Passes exactly when the two hashes agree, so always for identical contents. |
| Archive.RecombineLayers | internal/server/manager.go:249-293 | Succeeds exactly when every layer exists and the joined bytes hash like the original. A missing layer is a missing-layer error. |
| Archive.CleanupLayers | internal/server/manager.go:171-178 | Layers 0 to 9 are removed, and every other file is kept unchanged. |
| Archive.SplitThenJoin | internal/server/manager.go:209-284 | Joining the layers of a split gives the archive back, for every size. |
| Archive.LayerSizesSum | internal/server/manager.go:209-244 | The sizes of the ten layers of a split add up to the archive's size. |
| Archive.OneChangedLayerIsDetected | internal/server/manager.go:261-317 | If exactly one layer changes, the joined bytes differ from the original. |
| Archive.InitializeBedrockServer | internal/server/manager.go:115-169 | With no archive the configured path is used, and a failed stat is an error. With an archive it succeeds exactly when the file operations and the extraction both succeed: a failed file operation is a host-I/O error, and a failed extraction an extraction error. A fresh split always passes its check, and success reports the fixed extracted path. |
| Fleet.ServerConfigChanged | internal/server/manager.go:500-503 | A server needs a restart exactly when its port, version or world name differs, whatever the other fields say. |
| Fleet.Launch | internal/server/manager.go:505-601 | A failed launch leaves the fleet as it was. A successful one adds the server's name and files under it a new "starting" instance with the launched process and the server's own port. No other entry changes. |
| Fleet.AdmitOne | internal/server/manager.go:477-497 | One turn of the admission loop; its contract is `FleetProperties.AdmitOneProvenance`, `FleetProperties.AdmitOneSize` and `FleetProperties.AdmitAtCap`. |
| Fleet.Admit | internal/server/manager.go:477-497 | The admission loop over the desired list in order; its contracts are `FleetProperties.AdmitSize`, `FleetProperties.AdmitNewInOrder`, `FleetProperties.AdmitAtCap` and `FleetProperties.AdmitProvenance`. |
| Fleet.Reconcile | internal/server/manager.go:461-498 | `updateServers` on values; its contracts are `FleetProperties.ReconcileKeysDesired`, `FleetProperties.ReconcileWithinCap`, `FleetProperties.ReconcileProvenance`, `FleetProperties.ReconcileKeepsUnchanged` and `FleetProperties.ReconcileKeepsInvariant`. |
| Fleet.Poll | internal/server/manager.go:409-459 | `pollConfiguration` on values. Its contracts are `FleetProperties.PollShaFailureChangesNothing`, `FleetProperties.PollSkipsSeenCommit`, `FleetProperties.PollConfigFailure`, `FleetProperties.PollApplied`, `FleetProperties.SecondPollIsNoop` and `FleetProperties.PollKeepsInvariant`. |
| Fleet.PollAll | internal/server/manager.go:94-112 | The tick loop of `Start`, stopping at a panic. Its contracts are `FleetProperties.PollAllKeepsInvariant` and `FleetProperties.RepeatedCommitIsIdle`. |
| Fleet.RemoveStale | internal/server/manager.go:463-475 | The servers kept are exactly the tracked ones whose name is in the desired list, unchanged. |
| Fleet.RecordExit | internal/server/manager.go:627-642 | Only the named entry changes, and only its status, which becomes "crashed" after an error and "stopped" otherwise. An absent name changes nothing. |
| FleetProperties.ReconcileKeysDesired | internal/server/manager.go:461-498 | After `updateServers`, every tracked name is the name of an entry of the desired list. |
| FleetProperties.ReconcileWithinCap | internal/server/manager.go:477-481 | A fleet within the cap stays within it. |
| FleetProperties.AdmitOneProvenance | internal/server/manager.go:478-491 | An entry that one admission step changes or adds is the admitted server's, and holds a fresh "starting" instance of its launch. |
| FleetProperties.AdmitSize | internal/server/manager.go:477-497 | The admission loop never grows the fleet beyond the larger of its size and the cap. |
| FleetProperties.ReconcileProvenance | internal/server/manager.go:461-498 | Each tracked instance afterwards is either the one tracked before, untouched, or a desired entry that launched, filed under its name with status "starting", its own port and the process the launch gave. |
| FleetProperties.ReconcileKeepsInvariant | internal/server/manager.go:461-498 | Entries stay filed under their own names, none is "running", and the count stays within the cap. |
| FleetProperties.ReconcileKeepsUnchanged | internal/server/manager.go:484-503 | A desired server whose port, version and world name agree with every desired entry of its name keeps its instance: the same process, status and port. |
| FleetProperties.AdmitAtCap | internal/server/manager.go:478-481 | At the cap the admission loop changes nothing, changed servers included. |
| FleetProperties.AdmitNewInOrder | internal/server/manager.go:477-497 | When all desired servers are new, distinct and launch, exactly the first ones that fit under the cap are started: earlier entries win. |
| FleetProperties.CapTwoOfThree | internal/server/manager.go:477-497 | With a cap of two and new servers A, B, C, exactly A and B are tracked. |
| FleetProperties.ChangedServerRestarted | internal/server/manager.go:484-491 | A server whose port changed is replaced by a fresh "starting" instance of the new description, when the cap leaves room. |
| FleetProperties.RemovalLeavesUnchangedAlone | internal/server/manager.go:463-491 | With A and B tracked and only an unchanged A desired, B is gone and A is untouched. |
| FleetProperties.PollShaFailureChangesNothing | internal/server/manager.go:411-415 | A failed commit lookup changes nothing. |
| FleetProperties.PollSkipsSeenCommit | internal/server/manager.go:438-443 | Outside the first run, a commit equal to the last one changes nothing. A new commit id shorter than 8 characters panics with nothing changed. |
| FleetProperties.PollConfigFailure | internal/server/manager.go:418-450 | A failed document fetch leaves the fleet and the last document alone. The last commit is also kept, except on the first run, which has already recorded it. |
| FleetProperties.PollApplied | internal/server/manager.go:429-458 | Applying means both lookups succeeded. The fleet is then reconciled with the document, and the commit and the document are recorded. Outside the first run this needs a new commit id of at least 8 characters. |
| FleetProperties.SecondPollIsNoop | internal/server/manager.go:438-441 | After a tick applied a commit, a tick that sees the same commit does nothing, whatever the document source now says. |
| FleetProperties.PollKeepsInvariant | internal/server/manager.go:409-459 | Polling keeps the fleet invariant. |
| FleetProperties.PollAllKeepsInvariant | internal/server/manager.go:94-112 | Any run of ticks keeps the fleet invariant. |
| FleetProperties.RepeatedCommitIsIdle | internal/server/manager.go:94-112 | Ticks that see only the applied commit, or fail their lookup, leave the state as it was. |
| FleetProperties.InitialStateIsEmpty | internal/server/manager.go:73-79 | A new manager tracks nothing and has seen no commit (""). |
| FleetProperties.RecordExitKeepsInvariant | internal/server/manager.go:627-642 | An exit report keeps the fleet invariant. |
| Findings.FirstRunFetchFailureIsNeverRetried | internal/server/manager.go:418-441 | As written: after a first-run fetch failure, the next tick with the same commit reports it unchanged even though the document can now be fetched, and the fleet was never reconciled. |
| Findings.PollRetryingFailureChangesNothing | internal/server/manager.go:418-427 | Corrected: a failed fetch leaves the whole state as it was. |
| Findings.PollRetryingRetries | internal/server/manager.go:418-433 | Corrected: the tick after a failed fetch applies the same commit's document. |
| Findings.PollRetryingAgreesOnSuccess | internal/server/manager.go:409-459 | The correction agrees with the code whenever the document is fetched. |
| Findings.RunningCountIsAlwaysZero | internal/server/manager.go:767-771 | As written: no server is ever counted as running. |
| Findings.LaunchedServerIsNotCountedRunning | internal/server/manager.go:767-771 | As written: a server that was just launched is tracked but counted as stopped. |
| Findings.LaunchedServerIsLive | internal/server/manager.go:583-591 | Corrected: a launched server counts as live. |
| Findings.ExitedServerIsNotLive | internal/server/manager.go:627-642 | Corrected: after its exit report, a server is no longer live, and no other server changes. |
| Findings.LiveWithinTracked | internal/server/manager.go:747-777 | Corrected: the live servers are among the tracked ones. |
| Findings.PredecessorExitMarksReplacementCrashed | internal/server/manager.go:627-642 | As written: after a restart, the killed predecessor's exit report marks the running replacement "crashed". |
| Findings.ReplacementIgnoresPredecessorExit | internal/server/manager.go:627-642 | Corrected: the predecessor's report changes nothing, and the replacement's own report acts as before. |
| Findings.CapBlocksRestart | internal/server/manager.go:478-491 | As written: with a cap of one, a tracked server whose port changed keeps its old instance. |
| Findings.CapOnNewRestartsAtCap | internal/server/manager.go:478-491 | Corrected: the changed server is restarted at the cap. |
| Findings.ReconcileCapOnNewWithinCap | internal/server/manager.go:477-497 | Corrected: the cap still holds. |
| ServerManager.StatusOf | internal/server/manager.go:757-764 | A report entry carries the server's name, status text and port. |
| ServerManager.Summarize | internal/server/manager.go:756-774 | The loop lists each tracked server once, counts exactly the "running" ones as running, and counts every other server as stopped. |
| ServerManager.Manager.constructor | internal/server/manager.go:73-79 | A new manager tracks nothing, has seen no commit, and satisfies the invariant. |
| ServerManager.Manager.InitializeBedrockServer | internal/server/manager.go:115-169 | The binary path is set only on success: to the configured path with no archive, and to the extracted path otherwise. A failed stat is an error, and with an archive success needs both the file operations and the extraction to succeed. The fleet is untouched. |
| ServerManager.Manager.StopServer | internal/server/manager.go:603-616 | Removes exactly the named entry, if present, and nothing else, and keeps the fleet invariant. |
| ServerManager.Manager.StopAllServers | internal/server/manager.go:618-625 | Leaves the fleet empty and the other fields unchanged. |
| ServerManager.Manager.StartServer | internal/server/manager.go:505-601 | The fleet becomes `Fleet.Launch` of the old fleet: the server is tracked as "starting" exactly when its launch succeeds. |
| ServerManager.Manager.InConfiguration | internal/server/manager.go:465-471 | True exactly when some desired entry has the name. |
| ServerManager.Manager.RemoveStaleServers | internal/server/manager.go:463-475 | The fleet becomes `Fleet.RemoveStale` of the old fleet. |
| ServerManager.Manager.UpdateServers | internal/server/manager.go:461-498 | The fleet becomes `Fleet.Reconcile` of the old fleet, the invariant is kept, and no other field changes. |
| ServerManager.Manager.PollConfiguration | internal/server/manager.go:409-459 | The new state and the outcome are exactly those of `Fleet.Poll`. |
| ServerManager.Manager.RecordExit | internal/server/manager.go:627-642 | The fleet becomes `Fleet.RecordExit` of the old fleet, and the invariant is kept. |
| ServerManager.Manager.Start | internal/server/manager.go:81-113 | A failed preparation stops the run before any poll, and polls each tick with that tick's launches. Otherwise the run ends in the state `Fleet.PollAll` gives. At shutdown the fleet is emptied; after a panic it is left as it was. |
| ServerManager.Manager.GetStatus | internal/server/manager.go:747-777 | The total is the number of tracked servers. The running count is the number in status "running", and running plus stopped is the total. There is one entry per tracked server, each name once. |

## Left out

- Process control: `exec.Command`, `Kill`, `Wait` and the `time.Sleep` calls are left out. A launch is an input, and a kill is the removal of the entry.
- `killProcessesOnPort`, `cleanupPortsOnStartup` and the unused `killAllBedrockServers` are left out. These are `lsof` and `pkill` probing of the host; the model keeps only the list of ports a launch frees (`Provision.PlanLaunch`).
- Extraction is a boolean input: unzip, tar, `chmod`, `filepath.Walk` and `findBedrockExecutable` are host I/O.
- Archive.InitializeBedrockServer: the file operations of the pipeline are one boolean input, `hostIO`, with one error, `HostIOFailed`. That covers the layer removals of `cleanupLayers` (manager.go:175-176), the open, stat and `versions` directory of `splitArchive` (196-216), the creates, opens and copies of `recombineLayers` (255-279), and the reads of `calculateFileHash` (301-308, 322-329). Which of them failed, and the distinct error text of each, is not modelled.
- `cleanupLayers`' removal of the extracted directory and of the recombined archive is left out, because these are directories and files outside the layer map.
- SHA-256, hex, JSON and YAML encoding are parameters or left at the document level: they are library code. `Provision.Permissions` and `Provision.Whitelist` model the value marshalled, not its text.
- The GitHub client (internal/github/client.go) and the HTTP front end (cmd/client/main.go) are not part of this model. The lookups are inputs.
- Concurrency is left out: the mutex, the `monitorServer` goroutine and the ticker. Each locked section is one step, and an exit report is a call of `RecordExit`.
- `StartTime`, uptime, `LastUpdate`, `PlayerCount`, logging and the `Logs`/`MaxLogs` fields are left out, because they carry clocks or text only.
- Go's map iteration order is not modelled. Every result is stated for any order, and `Provision.RenderProperties` and `ServerManager.Summarize` pick an arbitrary remaining key at each step.
- `filepath.Join`, `filepath.Dir` and `filepath.Abs` are not cleaned or resolved: `Configuration.Path` keeps them symbolic.
- Configuration.ServerPathsDistinct: holds only for server names that are single clean path elements. `filepath.Join` cleans its result, so in the program names such as "a" and "a/", or "a" and "b/../a", are different fleet entries that share a directory and its three files. The model does not capture that collision, and nothing in config.go rejects such names.
- ServerManager.Manager.InitializeBedrockServer: the path is not made absolute, because the working directory is outside the model. The configured path and the extracted path are used as given.
- Configuration.ReadBranchFile: the branch file's bytes are taken as already decoded text. Go's `string(data)` keeps invalid UTF-8 bytes as they are, and `strings.TrimSpace` then treats them as non-space. The model does not distinguish them.
- Provision.RemapPort and Provision.Itoa: integers are unbounded. Go's 64-bit `int` would wrap in `Port + 20000 - 19132` only for ports near 2^63, which no YAML port reaches, so the wrap is not modelled.
- Archive.SplitArchive: the archive's bytes are taken as read in full. A short read that `io.CopyN` tolerates at end of file, and the layer files' own write errors, are not modelled.
- ServerManager.Manager.Start: a panicking tick ends the run, as the Go process would end. Stopping the servers at cancellation is modelled as the end of the tick sequence.
- Fleet.Poll and ServerManager.Manager.PollConfiguration: the document lookup is passed in even on paths where the code does not perform it. Those paths ignore it.
- Provision.PlanLaunch: the copy of server.properties to the binary's directory is modelled as its target path only. The copy's failure is one of the launch failures the `Launcher` input covers.
- ServerManager.Manager.StartServer: it does not keep the cap, since `startServer` itself does not check it (only `updateServers` does), so it states the new fleet but not the invariant.
- ServerManager.Manager.StopServer: stopping a server with no process handle and stopping one with a handle are the same step, since the handle is abstract.

## Findings

| source | as written | input that shows it | evidently intended | confidence | as-written member | corrected member |
|---|---|---|---|---|---|---|
| internal/server/manager.go:418-427 | In first-run mode the commit id is recorded before the document is fetched. | First run, commit `c` seen, fetch fails. Every later tick with commit `c` returns at the equality test, so the document of `c` is never applied. | Record the commit only once its document has been applied, so the next tick retries. | not executed | Findings.FirstRunFetchFailureIsNeverRetried | Findings.PollRetryingRetries |
| internal/server/manager.go:586, 635-638, 767-771 | `GetStatus` counts only status "running", which no code path assigns. | One server just launched, in status "starting": reported as running 0, stopped 1. | Count started servers that have not exited as running. | not executed | Findings.LaunchedServerIsNotCountedRunning | Findings.LaunchedServerIsLive |
| internal/server/manager.go:487-490, 627-642 | `monitorServer` finds the entry by name only. | Server A with process p1 has its port changed and is restarted as p2. The kill makes p1's `Wait` return an error, and the report marks A (now p2, running) "crashed". | Ignore an exit report from a process that is no longer the one tracked under the name. | not executed | Findings.PredecessorExitMarksReplacementCrashed | Findings.ReplacementIgnoresPredecessorExit |
| internal/server/manager.go:478-491 | The cap is checked before the name is looked up. | MaxInstances 1, A tracked on port 19132, desired A on port 19133: A keeps running on 19132. | Apply the cap only to new servers; a restart replaces its own entry. | not executed | Findings.CapBlocksRestart | Findings.CapOnNewRestartsAtCap |

# gitmirror, modelled in Dafny

gitmirror is a small Go program (`main.go`). It mirrors a list of git repositories from a source host to a target host. At startup it does three things:

- it loads a `.env` file;
- it requires four credentials: `GIT_USERNAME1`, `GIT_USERNAME2`, `GIT_SOURCE_TOKEN` and `GIT_TARGET_TOKEN`;
- it reads the pairs `{id, source, target}` from `repositories.json`.

For each pair, in list order, the program logs a progress line and runs `syncRepositories`. That function does the following:

1. It builds two authenticated URLs:
   - `http://<username2>:<sourceToken>@<source>`;
   - `https://<username1>:<targetToken>@<target>`.
2. It logs a "Syncing" line.
3. It creates a scratch directory and registers a deferred removal of it.
4. It bare-clones the source into the scratch directory, authenticated as `username2` with the source token.
5. It adds a remote named `target` whose only URL is the target URL.
6. It force-pushes to that remote, authenticated as `username1` with the target token.
7. It logs "Sync completed".

If the push reports that everything is already up to date, the program logs that and carries on. Every other error is logged through `log.Fatalf`, which ends the process at once.

## How the model works

The model describes what the program does as a trace of events (module `Trace`). An event is one of:

- a log line;
- a fatal line, after which the process has exited;
- creating or removing a scratch workspace;
- a clone, an add-remote or a push, each with its exact URL, credentials and flags.

The lines themselves are values of the datatype `Lines.Line`. `Lines.Text` gives the wording of each line, as the program's format strings produce it.

The program never computes the results of the transport, of `ioutil.TempDir` or of reading the configuration file itself. In the model they are inputs:

- `transport(k)` answers the steps of the k-th pair: the temp-dir result, the clone result, the remote result, and the push result, which is pushed, already up-to-date, or failed;
- `Config` says whether the repository list was loaded or which of open, read or decode failed.

`Mirror` defines the behaviour as functions:

- `SyncTrace` for one pair;
- `Blocks` and `RunTrace` for the batch loop (`FirstFatal` is the first failing pair);
- `MainTrace` for the whole process.

`Program.Process` is the imperative form of the same program. It is a class whose `trace` and `halted` fields grow step by step, with these methods:

- `LogMessage` and `ErrorMessage` are the two loggers;
- `SyncRepository` follows `syncRepositories` with its early exits;
- `Run` is `main`;
- `SyncAll` is main's `for` loop, with loop invariants.

Each method is proved to leave exactly the events and the halted flag that the functions specify. `MirrorProperties`, `RunProperties` and `MainProperties` prove the promised properties about those functions.

### Fatal errors skip the deferred cleanup

`main.go:44` looks like guaranteed cleanup of the scratch directory, but it is not. The program reports every error with `log.Fatalf`, which calls `os.Exit`, and Go does not run deferred calls on `os.Exit`. So the removal runs only when `syncRepositories` returns normally:

- on a fatal error after the scratch directory exists, that directory is left behind (`PairWorkspace`, `RunWorkspace`);
- only pairs that return normally remove their directory (`FatalRunCounts`).

The program also ignores the error `os.RemoveAll` returns. The model treats every removal as done: when it says the scratch storage ends `Idle`, that means a removal was requested for every workspace created, not that the directories are gone from disk.

## Model

| member | source | states |
|---|---|---|
| Endpoints.SourceEndpoint | main.go:34 | The defining function: the source URL as the format string assembles it. |
| Endpoints.TargetEndpoint | main.go:35 | The defining function: the target URL as the format string assembles it. |
| Endpoints.SourceEndpointRoundTrip | main.go:34 | When the principal has no ':' and the secret no '@', the source URL reads back as scheme http, user `username2`, password the source token, host the source location. |
| Endpoints.TargetEndpointRoundTrip | main.go:35 | Under the same conditions, the target URL reads back as scheme https, user `username1`, password the target token, host the target location. |
| Endpoints.EndpointsDiffer | main.go:34-35 | The source URL and the target URL are never equal, whatever the credentials and locations: their schemes differ. |
| Endpoints.SourceTokenAt | main.go:34 | The exact positions of `username2` and of the source token inside the source URL, and the URL's length. |
| Lines.Text | main.go:37-123 | The defining function: the wording of each logged message, as the program's literals and format strings produce it. |
| Lines.IdText | main.go:123 | The defining function: `%d` applied to a repository id, a minus sign included for negative ids. |
| Lines.DigitsValue | main.go:123 | The decimal rendering of a number is a non-empty string of digits that reads back as that number. |
| Lines.IdTextInjective | main.go:123 | Two different ids are never rendered alike by `%d`. |
| Lines.ProgressNamesPair | main.go:123 | Two progress lines with the same text announce the same repository id. |
| Lines.ProgressLinesStandOut | main.go:123 | A logged line starts with "Processing repository ID " if and only if it is a progress line. |
| Mirror.SyncTrace | main.go:32-85 | The defining function: the events of one call of `syncRepositories`, ending at the first fatal step, for each combination of step results. |
| Mirror.Blocks | main.go:122-125 | The defining function: the events of the first n loop iterations, each a progress line and then that pair's events. |
| Mirror.RunTrace | main.go:122-125 | The defining function: the batch loop runs the pairs up to and including the first fatal one. |
| Mirror.MainTrace | main.go:86-125 | The defining function: the whole process, meaning the `.env` load, the credential test, the three configuration steps and then the batch loop. |
| Mirror.FirstFatal | main.go:122-125 | The position where the batch stops is the least position whose outcome is fatal, or the end of the list when there is none. |
| MirrorProperties.PairOutcomeShape | main.go:37-84 | A pair is fatal exactly when some step failed other than by an up-to-date push. It starts with its "Syncing" line. A fatal line can only be last, and is last exactly when the pair is fatal. A normal return creates the workspace, clones, adds the remote and pushes, in that order, and ends with the completion line and then the workspace removal, and the up-to-date line comes just before them exactly when the push had nothing to do. |
| MirrorProperties.PairCounts | main.go:40-84 | Number of events of each kind for one pair. There is one workspace and one clone once the temp dir exists. The remote is added only after a clone succeeded, and the push happens only after the remote was added. There is one removal exactly when the pair is not fatal and one fatal line exactly when it is. |
| MirrorProperties.PairMessages | main.go:37-84 | The lines a pair logs, in order, for every combination of step outcomes. |
| MirrorProperties.PairLinesIgnoreCredentials | main.go:37 | Unless the clone fails, the lines a pair logs (and so their text) are the same for any two credential sets, for the same transport answers. |
| MirrorProperties.CloneFailureRevealsSecret | main.go:53-55 | When the clone fails, the process's last line is fatal, and its text contains the source token and `username2`. |
| MirrorProperties.PairWorkspace | main.go:40-44 | A pair creates one workspace and uses the transport only inside it. A removal is requested after a normal return. It is still held after a fatal error once the directory exists. |
| MirrorProperties.PairCredentialRoles | main.go:46-74 | Every event of a pair is in that pair's workspace. The clone is bare, goes to the source URL and authenticates as `username2` with the source token. The remote is named "target" and its only URL is the target URL. The push is forced, goes to "target" and authenticates as `username1` with the target token. |
| RunProperties.BlockShape | main.go:122-124 | One iteration starts with the pair's progress line. A fatal line can only end it, and ends it exactly when the pair is fatal. |
| RunProperties.BlocksCount | main.go:122-125 | The events of each kind in the first n iterations are the per-pair counts summed over those pairs, plus one progress line per pair. |
| RunProperties.BlocksMessages | main.go:122-125 | The lines of the first n iterations are each pair's progress line followed by that pair's own lines, in list order. |
| RunProperties.RunStopsAtFirstFatal | main.go:122-125 | The run is fatal if and only if some configured pair is fatal. Its fatal line, if any, is its last event. A run that is not fatal has no fatal line. |
| RunProperties.AllPairsSucceed | main.go:122-125 | When no pair fails, the run is not fatal and has exactly N workspace creations, clones, remotes, pushes and removals, and no fatal line. |
| RunProperties.FatalRunCounts | main.go:122-125 | On a fatal run: exactly one fatal line; one removal per pair before the failing one and none for the failing pair; the failing pair's later steps never run; later pairs never run. |
| RunProperties.RunWorkspace | main.go:40-44 | The run never holds two workspaces and never uses the transport outside the one it holds. It ends with a removal requested for every workspace, except that a failing pair whose directory exists leaves exactly that directory behind. |
| RunProperties.RunCredentialRoles | main.go:122-124 | Every workspace event belongs to a processed pair and uses that pair's URLs and the credentials of its step's role. Pairs are handled in list order. |
| RunProperties.FatalStopsLaterPairs | main.go:28-30 | After a fatal pair no later pair touches the scratch storage or the transport. |
| RunProperties.RunOrder | main.go:122-123 | The k-th processed pair's iteration follows those of the pairs before it, and it starts with the progress line for that pair's id. |
| RunProperties.UpToDateContinues | main.go:76-84 | An up-to-date push is not fatal: the next pair is still processed. |
| RunProperties.RunLogIgnoresCredentials | main.go:37 | Unless the clone of a processed pair fails, the run's log is the same for any two credential sets, for the same transport answers. |
| MainProperties.StartupGate | main.go:88-100 | Without the `.env` file, or without all four credentials, the process stops with that single fatal line, before any configuration read or transport call. The configuration and transport answers make no difference. |
| MainProperties.ConfigFailureIsFatal | main.go:103-119 | A repository list that cannot be opened, read or decoded stops the process with one fatal line naming that step, before any pair. |
| MainProperties.MainShape | main.go:86-125 | For every input: a fatal line only as the last event, and exactly when the process stopped on an error; the scratch storage is never misused: there is no second workspace before the previous one's removal was requested; pairs are handled in list order. |
| MainProperties.MainSucceeds | main.go:86-125 | With credentials, a readable list and no failing pair, the process ends normally. Every pair is mirrored once, and a removal is requested for every workspace. |
| MainProperties.EndpointsCarryTheirRoles | main.go:34-74 | For every clone of a run, the URL reads back as the pair's source with `username2` and the source token, matching its credentials. For every remote, the URL reads back as the pair's target with `username1` and the target token. Every push uses the target credentials. |
| MainProperties.SinglePairUpToDate | main.go:76-84 | One pair whose target already matches: a normal end with exactly the progress, "Syncing", up-to-date and completion lines, and a removal requested for its workspace. |
| MainProperties.SecondCloneFails | main.go:53-55 | The first of two pairs is mirrored. Then the process stops on the second pair's clone error: that pair gets no remote and no push. |
| Program.Process.LogMessage | main.go:24-26 | Appends one informational line and keeps the process running. |
| Program.Process.ErrorMessage | main.go:28-30 | Appends one fatal line and halts the process. |
| Program.Process.Perform | main.go:40-74 | Records one call to the scratch storage or the transport (`TempDir`, `PlainClone`, `CreateRemote`, `Push`, `RemoveAll`) that returned to the program, leaving it running. |
| Program.Process.SyncRepository | main.go:32-85 | The imperative sync of one pair leaves exactly the events of `SyncTrace`, and halts exactly when `SyncTrace` is fatal. |
| Program.Process.SyncPair | main.go:123-124 | One loop iteration either halts with the whole run's outcome or extends the loop state by one pair. |
| Program.Process.SyncAll | main.go:122-125 | The loop leaves exactly `RunTrace`'s events and halted flag. When it ends normally, the pairs were cloned and pushed once each. |
| Program.Process.Run | main.go:86-125 | The imperative `main` leaves exactly `MainTrace`'s events and halted flag. When it ends normally after loading the list, every pair was cloned and pushed once. |

## Left out

- go-git internals are not modelled: the clone, add-remote and push calls are recorded with their arguments, and their results are inputs.
- `godotenv.Load`, `os.Getenv`, `os.Open`, `ioutil.ReadAll` and `json.Unmarshal` are not modelled as I/O. Their results are the inputs `envLoaded`, `Env` and `Config`.
- JSON decoding is not modelled: a decoded list is the input `Loaded(pairs)`.
- Timestamps and the logger's "[time] " and "ERROR: " prefixes are left out. `Lines.Text` gives the message that follows them.
- The scratch directory's name and location are left out. A pair's workspace is identified by the pair's position in the list.
- The process exit code is modelled only as the `halted` flag. The exit itself is modelled as "no further events".
- The error returned by the deferred `os.RemoveAll` (main.go:44) is ignored by the source. The model treats every removal as done, so a scratch directory that could not be deleted is not represented. `Idle` therefore means "every created workspace had its removal requested".
- `defer jsonFile.Close()` is left out: it has no effect on the trace.
- Error texts from the transport, the file system and the JSON decoder are opaque strings supplied by the inputs.
- `Endpoints.Parse` is an independent reader of the assembled URLs, written to state where each credential ends up. It is not go-git's URL parser.
- The "missing credentials" message is written in `Lines.Text` as two concatenated literals. The string is the same as in the source.
- Endpoints.SourceEndpointRoundTrip: reads the URL back only when `username2` has no ':' and the source token no '@'. The source pastes the credentials into the URL without escaping them, so any other credentials make the URL ambiguous and no reader can recover them. `Endpoints.SourceTokenAt` still says where each credential sits.
- Endpoints.TargetEndpointRoundTrip: reads the URL back only when `username1` has no ':' and the target token no '@'. The reason is the same: the credentials are not escaped.
- MainProperties.EndpointsCarryTheirRoles: assumes the same restriction on all four credentials, because it relies on the two round trips.

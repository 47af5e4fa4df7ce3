# foundryvtt-docker installer, modelled in Dafny

This project models the Rust installer that runs before Foundry VTT in the
foundryvtt-docker image. The installer does the following:

- It serves a page that accepts a download URL or an uploaded ZIP.
- It downloads or receives the archive into `<target>/archive.zip`.
- It checks the archive's size, extracts it and deletes it.
- It publishes every step as a progress event on a broadcast channel, which
  subscribers read as server-sent events.
- It hands the one-shot shutdown sender to the server.

The model also covers the start-up checks and configuration, the supervisor
loop that keeps Foundry running, and the class-list helpers of the client's
success screen.

Every input or output the code gets from the outside world is a parameter
of the model:

- directory creation, file creation, writes and removal;
- the HTTP transfer and the multipart stream;
- the canonical reason phrase of a response's status code;
- `fs::metadata`;
- the zip library's verdicts, and a panic of the extraction worker;
- the environment, the current directory and the commands' outputs;
- whether Foundry's script exists, and how a spawned child ends.

Each imperative operation is a method over an `EventChannel` (the events
sent), a `FileSystem` (directories and file contents) and an `AppState` (the
shutdown slot). Each method is proved equal to a specification function of
its inputs and the old state. The properties are lemmas about those
functions.

Modules, in dependency order:

| module | file | models |
|---|---|---|
| `Base` | base.dfy | `Option`, `Result`, bytes, `io::Error` |
| `Text` | text.dfy | integer printing and parsing, fixed-point MiB text |
| `Fs` | fs.dfy | the file system calls the installer makes |
| `Events` | events.dfy | `ProgressEvent`, SSE framing, the channel, the per-subscriber stream |
| `Utils` | utils.dfy | `paths`, `run_command` |
| `Config` | config.dfy | `AppConfig::from_env`, `get_target_directory` |
| `Initialization` | initialization.dfy | `initialize` and its checks |
| `Downloader` | downloader.dfy | `download_file_from_url` |
| `Extractor` | extractor.dfy | `extract_zip` |
| `Handlers` | handlers.dfy | the handlers and their helpers |
| `UploadProperties` | upload_properties.dfy | the multipart loops' properties |
| `HandlerProperties` | handler_properties.dfy | both handlers' properties |
| `Launch` | launch.dfy | `launch_foundry` as a trace of actions |
| `ClassList` | classlist.dfy | `changeToSuccess.ts` helpers |

Where the code does something a reader might not expect, the model follows
the code:

- **Uploaded progress.** Upload progress is not monotone. Each multipart
  field re-announces "Uploading file..." at 10, so two fields of 512 KiB
  report 10, 10.5, 10, 10.5 (`UploadProperties.UploadProgressCanDecrease`).
- **Downloaded progress.** Download progress is monotone only while the
  server's announced length is not exceeded.
- **Upload progress cadence.** Upload progress is keyed to `field_bytes`,
  not the running total. It fires only when that count is an exact multiple
  of 512 KiB, not at every 512 KiB passed.
- **Two size checks.** An empty upload is answered 400 by the first size
  check. A second check of the file's metadata can still answer 500.
- **Failed extraction.** A failed extraction sends two `error` events: the
  extractor's and the handler's.
- **Subscriber lag.** A subscriber that lags is not skipped forward. Any
  receive error, lag included, ends its stream.
- **Supervisor.** The supervisor has no shutdown path. A spawn failure panics
  rather than being retried.
- **Port parsing.** An unparsable `SERVER_PORT` gives 4444 even when
  `APPLICATION_PORT` is valid. Start-up validation parses `APPLICATION_PORT`
  as a `u32`, while the configuration parses it as a `u16`.

## Model

| member | source | states |
|---|---|---|
| Text.NatToString | server/src/handlers.rs:224 | `{}` of an unsigned integer is a non-empty string of digits, with no leading zero |
| Text.ParseUnsigned | server/src/config.rs:18-22 | a successful `parse::<uN>()` of a non-empty text gives a value no larger than the type's maximum |
| Text.ParseNatToString | server/src/config.rs:18-22 | printing a value that fits the type and parsing it back gives the value |
| Fs.FileSystem.CreateDirAll | server/src/handlers.rs:48 | `create_dir_all` adds the directory, or fails with its error and changes nothing; files are untouched |
| Fs.FileSystem.Create | server/src/handlers.rs:287 | `File::create` makes the file empty, or fails and changes nothing |
| Fs.FileSystem.WriteAll | server/src/handlers.rs:351 | `write_all` appends the bytes to the file, or fails and changes nothing; a write is taken to land whole and to report its own error (see Left out) |
| Fs.FileSystem.RemoveFile | server/src/handlers.rs:104-109 | `remove_file` succeeds iff there is no fault and the file exists; then the file is gone, else nothing changes |
| Events.New | server/src/events.rs:19-25 | `ProgressEvent::new` stores type, message and progress unchanged |
| Events.ErrorEvent | server/src/handlers.rs:50-54 | an `error` event carries no progress value |
| Events.ToSseFormat | server/src/events.rs:27-33 | a client reads back from the frame exactly the serialised JSON, or `{}` when serialisation failed |
| Events.KeepaliveIsNotData | server/src/events.rs:46-48 | the keepalive `:\n\n` is a comment, never a data frame |
| Events.EventChannel.Send | server/src/handlers.rs:169-173 | publishing appends the event to the log and never fails the sender |
| Events.StreamStep | server/src/events.rs:44-63 | a tick yields a keepalive; a received event yields a frame carrying its JSON; a receive error ends the stream |
| Events.StreamCarriesEventsInOrder | server/src/events.rs:42-65 | the data frames a client receives are the frames of the received events, in receive order and none missing |
| Events.ErrorEndsStream | server/src/events.rs:57-60 | after any receive error (lag or closed), nothing further reaches the client |
| Events.TickContinues | server/src/events.rs:46-48 | a tick yields one keepalive and the stream goes on |
| Events.SseStream.constructor | server/src/events.rs:36-43 | a fresh subscription has sent nothing and is not finished |
| Events.SseStream.Next | server/src/events.rs:44-64 | one unfold step consumes one wake-up, appends its frame, and finishes exactly on a receive error, keeping the output equal to `StreamOutput` of what was observed |
| Utils.VarOr | server/src/utils.rs:13-14 | `env::var(..).unwrap_or_else(default)`: the variable's value when set, else the default |
| Utils.PathPush | server/src/utils.rs:21-25 | `PathBuf::push`: an absolute component replaces the path, otherwise the path, at most one `/`, then the component |
| Utils.FoundryScriptPathShape | server/src/utils.rs:13-25 | the script path is the application directory (default `/foundryvtt`) with `main.js` pushed; by default `/foundryvtt/main.js` |
| Utils.RunCommand | server/src/utils.rs:30-50 | `run_command` is Ok exactly when the command could be executed, and then it is its stdout |
| Utils.RunCommandIgnoresStatus | server/src/utils.rs:38-49 | a failure exit status still yields stdout; stderr does not matter |
| Config.ServerPortText | server/src/config.rs:18-20 | the port text is SERVER_PORT, else APPLICATION_PORT, else "4444" |
| Config.ServerPort | server/src/config.rs:18-22 | the port is the chosen text parsed as `u16`, or 4444 when it does not parse |
| Config.DefaultPortParses | server/src/config.rs:20-22 | the default "4444" parses to 4444 |
| Config.ServerPortPrecedence | server/src/config.rs:18-22 | a valid SERVER_PORT wins; without it a valid APPLICATION_PORT is used; without both the port is 4444 |
| Config.InvalidServerPortIgnoresApplicationPort | server/src/config.rs:18-22 | an unparsable SERVER_PORT gives 4444 even when APPLICATION_PORT holds a valid port |
| Config.FoundryArgs | server/src/config.rs:31-37 | exactly five arguments: `--dataPath=DATA_DIR`, `--port=<port>`, `--hostname=<host>`, `--noupnp`, `--proxySSL` |
| Config.FoundryPortArgRoundTrip | server/src/config.rs:18-33 | parsing the `--port=` argument back gives the server port |
| Config.TargetChoiceOf | server/src/config.rs:52-60 | TARGET_DIR, else APPLICATION_DIR, else `cwd` with `tmp` pushed |
| Config.TargetDirectory | server/src/config.rs:52-63 | a variable's value is returned as is; the fallback is returned once created; each `expect` panics with its message |
| Config.GetTargetDirectory | server/src/config.rs:52-63 | the method returns `TargetDirectory` and creates only the fallback directory |
| Config.FallbackExists | server/src/config.rs:56-60 | a returned fallback directory exists |
| Config.FromEnv | server/src/config.rs:14-49 | the configuration exists iff the target directory does; each field is the one its resolver gives: static directory, port (within `u16`), host, target directory, the arguments built with that port, and the script path |
| Config.DefaultConfig | server/src/config.rs:14-49 | with no variables set: "static", 4444, "0.0.0.0", `cwd/tmp`, the default five arguments, `/foundryvtt/main.js` |
| Initialization.FirstExecFailure | server/src/initialization.rs:49-78 | system information fails iff some command could not be executed, and it fails with the first such command |
| Initialization.Unset | server/src/initialization.rs:109-117 | the names reported are exactly the required names that are unset |
| Initialization.CheckRequiredEnv | server/src/initialization.rs:104-124 | every required variable is checked and each unset one is reported before the check fails; it fails iff one is unset |
| Initialization.ValidateEnv | server/src/initialization.rs:126-144 | equal application and data directories are rejected; otherwise validation passes iff APPLICATION_PORT (default "4444") parses as `u32` |
| Initialization.ValidateDefaults | server/src/initialization.rs:126-144 | with the directory defaults and no APPLICATION_PORT, validation passes |
| Initialization.PortWidthMismatch | server/src/initialization.rs:137-141 | "70000" passes the `u32` validation, yet the `u16` configuration falls back to 4444 |
| Initialization.EnsureDirectories | server/src/initialization.rs:146-195 | the directory loop over application and data directory: creations, warnings and result as `DirsFold` says |
| Initialization.CheckDirectory | server/src/initialization.rs:152-194 | one directory: a missing one is created or the loop stops with "Failed to create <dir>"; a metadata or listing error stops it; a clear owner-write bit adds a warning |
| Initialization.CheckedDirsExist | server/src/initialization.rs:152-161 | once the loop got past a directory, that directory exists |
| Initialization.CreateFailureStops | server/src/initialization.rs:155-158 | a missing directory that cannot be created stops the loop with "Failed to create <dir>" before its metadata is read |
| Initialization.NotWritableOnlyWarns | server/src/initialization.rs:160-167 | a clear owner-write bit (0o200) only names the directory in a warning; the outcome is the same as with the bit set |
| Initialization.Initialize | server/src/initialization.rs:12-17 | start-up returns and runs the stages as `InitializeSpec` says |
| Initialization.InitializeStopsAtFirstError | server/src/initialization.rs:12-17 | the stages run in order up to and including the first failure, whose error is the result; start-up succeeds iff every stage does |
| Initialization.StartupOfStopsAtFirstError | server/src/initialization.rs:12-17 | for any stage outcomes with the banner succeeding, the stages run are a prefix ending at the first failure, whose error is the result |
| Downloader.CrossesBoundaryIff | server/src/downloader.rs:80 | `downloaded % 5MiB < len` holds iff a multiple of 5 MiB lies in (downloaded - len, downloaded] |
| Downloader.NormalizedProgressRange | server/src/downloader.rs:74-77 | `15 + 0.35 * percent` grows with the count and stays within [15, 50] while the count is within the length |
| Downloader.Preflight | server/src/downloader.rs:35-49 | the pre-flight event is `downloading` at 15, known length or not |
| Downloader.DownloadSpec | server/src/downloader.rs:11-49 | a transport error fails before any event or file; a non-success status fails with "Download failed with status: " and the status's code and reason phrase, with no event and no file; a success starts with the pre-flight event; no file means failure |
| Downloader.NotFoundStatusText | server/src/downloader.rs:25-32 | a 404 is printed as "404 Not Found" |
| Downloader.UnknownStatusText | server/src/downloader.rs:25-32 | a code without a canonical reason is printed as "599 <unknown status code>" |
| Downloader.DownloadFileFromUrl | server/src/downloader.rs:11-115 | the download sends `DownloadSpec`'s events, returns its result and leaves its file at the save path |
| Downloader.CopyBody | server/src/downloader.rs:57-111 | the chunk loop writes, counts and reports as `Fold` says and stops at the first error |
| Downloader.CopyItem | server/src/downloader.rs:59-110 | one iteration: a read error or a failed write stops it with that message and nothing more written or sent; a written chunk is appended to the file, counted and reported as `Step` says |
| Downloader.ReportChunk | server/src/downloader.rs:74-110 | the progress check after one chunk sends `ChunkEvents` |
| Downloader.CompletedTransfer | server/src/downloader.rs:57-72 | a loop that completed saw no failing item; the file holds all chunks concatenated in order and `downloaded` is their length |
| Downloader.StoppedTransfer | server/src/downloader.rs:59-70 | a loop that failed stopped at the first failing item; the file keeps the chunks before it, and the error names the cause |
| Downloader.LoopProgress | server/src/downloader.rs:74-109 | the loop's values are non-decreasing, lie in [15, value at the current count] with a known length, and are all 30 without one |
| Downloader.DownloadProgress | server/src/downloader.rs:34-109 | a download's values are non-decreasing and at least 15, at most 50 when the body does not exceed the announced length, and 30 after the first when the length is unknown |
| Downloader.StreamedProgress | server/src/downloader.rs:34-109 | the same shape for the pre-flight event followed by the streamed chunks' events |
| Downloader.DownloadEventTypes | server/src/downloader.rs:38-109 | every event the downloader sends is `downloading` |
| Extractor.RunTask | server/src/extractor.rs:54-129 | the worker sends and returns what `TaskSpec` says: open, read, extract, or panic at the given stage |
| Extractor.ExtractZip | server/src/extractor.rs:15-149 | `extract_zip` sends `ExtractSpec`'s events and returns its result; it creates the target only when the archive exists and the target is missing |
| Extractor.ExtractOkIff | server/src/extractor.rs:15-149 | extraction succeeds iff the archive exists, the target exists or is created, it opens, it is a zip, it unpacks and no panic occurs; success sends `extracting` 65 then `extracted` 85 |
| Extractor.ExtractErrorKinds | server/src/extractor.rs:22-142 | a missing archive is NotFound; creation and open errors pass through; a non-zip is InvalidData "Invalid ZIP file"; an unpack failure is Other; a worker panic is Other "Extraction thread panicked: " with the panic's message, and the worker panics exactly when a panic falls at opening, at reading after the file opened, or at unpacking after the archive was read |
| Extractor.ExtractErrorEvents | server/src/extractor.rs:22-142 | every failure sends exactly one `error` event, except a failed target creation, which sends none |
| Extractor.TaskErrorCount | server/src/extractor.rs:54-129 | the worker sends one `error` event exactly when it returns an error, none when it panics or succeeds |
| Extractor.MissingArchiveIgnoresOracle | server/src/extractor.rs:22-28 | a missing archive sends one `error` event and nothing is opened, whatever the later outcomes would be |
| Extractor.ExtractProgress | server/src/extractor.rs:79-113 | the extractor's values are none, 65, or 65 then 85 |
| Extractor.ExtractEventTypes | server/src/extractor.rs:15-149 | the extractor sends only `extracting`, `extracted` and `error` |
| Handlers.EnsureTargetDirectory | server/src/handlers.rs:40-63 | the target directory is resolved, created only when missing, and a creation failure sends an `error` event and yields a 500 |
| Handlers.ExtractAndCleanup | server/src/handlers.rs:66-112 | sends `extracting` 60, the extractor's events, then either an `error` and a 500 or `cleanup` 90 with the archive's removal attempted |
| Handlers.CompleteInstallation | server/src/handlers.rs:115-157 | sends `complete` 100, takes the sender if the slot holds it and then sends `transition`; the slot is empty afterwards and the response is 200 either way |
| Handlers.Finish | server/src/handlers.rs:241-259 | extract and clean up, then complete, as `FinishSpec` says |
| Handlers.DownloadAndExtract | server/src/handlers.rs:159-260 | the download handler's events, response, file system and shutdown slot are those of `DownloadAndExtractSpec` |
| Handlers.Fetch | server/src/handlers.rs:181-259 | the download handler after the target directory exists, as `FetchSpec` says |
| Handlers.Acquire | server/src/handlers.rs:184-204 | `downloading` 10, the download into the archive path, and on failure an `error` event and a 500 |
| Handlers.VerifyDownload | server/src/handlers.rs:206-259 | the size check after the download (empty or no metadata gives an `error` and a 500), then `downloaded` 50 and the shared tail |
| Handlers.ScaledUpload | server/src/handlers.rs:366-367 | the upload value lies in [10, 50] and is 50 exactly from 40 MiB on |
| Handlers.ReceiveParts | server/src/handlers.rs:329-374 | a field's chunk loop counts, writes and reports as `PartsFold` says and stops at the first error |
| Handlers.ReceivePart | server/src/handlers.rs:332-373 | one chunk: both counters grow before the write; a write or stream error sends `error`; otherwise the tick check |
| Handlers.ReportUpload | server/src/handlers.rs:363-373 | a progress event is sent exactly when `field_bytes` is a multiple of 512 KiB |
| Handlers.ReceiveFields | server/src/handlers.rs:305-375 | the field loop runs as `FieldsFold` says and stops at the first error |
| Handlers.ReceiveField | server/src/handlers.rs:306-331 | one field: a stream error sends `error`; otherwise `uploading` 10 and the chunk loop from `field_bytes` 0 |
| Handlers.UploadAndExtract | server/src/handlers.rs:262-440 | the upload handler's events, response, file system and shutdown slot are those of `UploadAndExtractSpec` |
| Handlers.ReceiveAndExtract | server/src/handlers.rs:302-429 | the upload after the empty archive was created, as `ReceivedSpec` says |
| Handlers.VerifyUpload | server/src/handlers.rs:377-439 | an empty upload gives an `error` and a 400; else `uploaded` 50, the metadata check (an `error` and a 500), then the shared tail |
| UploadProperties.PartsFoldData | server/src/handlers.rs:347-361 | a chunk loop without error appends every chunk's bytes to the file and adds their number to both counters |
| UploadProperties.UploadWritesEverything | server/src/handlers.rs:330-361 | a completed upload's file holds every chunk of every field in arrival order, and `total_bytes` is their number |
| UploadProperties.UploadEvents | server/src/handlers.rs:306-375 | the loops send only "Uploading file...", a report for a multiple of 512 KiB, or an `error`; a stopped upload sent exactly one `error`, a finished one none |
| UploadProperties.UploadProgressRange | server/src/handlers.rs:363-372 | every value the loops report lies in [10, 50] |
| UploadProperties.OneChunkField | server/src/handlers.rs:322-373 | a field of one 512 KiB chunk sends "Uploading file..." and one report |
| UploadProperties.TwoChunkFields | server/src/handlers.rs:306-375 | two such fields send the pair twice |
| UploadProperties.UploadProgressCanDecrease | server/src/handlers.rs:322-372 | two such fields report 10, 10.5, 10, 10.5: upload progress can go down |
| HandlerProperties.CleanupOutcome | server/src/handlers.rs:79-111 | cleanup fails iff extraction does, with its message; the archive is gone iff extraction succeeded and its removal did; a removal failure is still Ok; other files are untouched |
| HandlerProperties.CleanupErrorEvents | server/src/handlers.rs:79-95 | a failed extraction shows two `error` events, one when the extractor could not create the target, and a success none |
| HandlerProperties.CleanupSendsNoTransition | server/src/handlers.rs:66-112 | extraction and cleanup never send `transition` |
| HandlerProperties.CompleteTransitions | server/src/handlers.rs:141-152 | `complete_installation` sends `transition` once exactly when it took the sender |
| HandlerProperties.FinishShutdown | server/src/handlers.rs:241-259 | the shared tail answers 200 iff cleanup succeeded, and only then takes the sender and sends `transition` |
| HandlerProperties.TargetFailure | server/src/handlers.rs:47-58 | without a target directory, both handlers stop right after `start`: one `error` and a 500 (or an aborted request), files untouched, the sender kept |
| HandlerProperties.TargetReady | server/src/handlers.rs:40-63 | after a successful `ensure_target_directory` the directory exists and nothing was sent |
| HandlerProperties.DownloadEvents | server/src/handlers.rs:169-204 | the download handler's log is `start`, `downloading` 10, the downloader's events, then the handler's `error` or the later stages |
| HandlerProperties.DownloadFailure | server/src/handlers.rs:192-204 | a failed download gives exactly one `error` event and a 500 with its message; no `extracting` or `complete` follows and the sender is kept |
| HandlerProperties.DownloadCheckFailure | server/src/handlers.rs:207-239 | an empty or uninspectable archive ends with that `error` and a 500 ("Downloaded file is empty" for 0 bytes); nothing is extracted and the archive stays |
| HandlerProperties.DownloadSuccess | server/src/handlers.rs:159-260 | a 200 means every stage passed; the log is the stages' in order and the sender was taken |
| HandlerProperties.DownloadSuccessArchive | server/src/handlers.rs:97-109 | after a successful download the archive remains iff its removal failed, and then it holds every byte received |
| HandlerProperties.CleanupSuccessProgress | server/src/handlers.rs:72-102 | a successful cleanup reports 60, 65, 85, 90 |
| HandlerProperties.DownloadSuccessProgress | server/src/handlers.rs:169-226 | a successful download reports 0, 10, the downloader's values, 50, 60, 65, 85, 90, 100, and 100 again for `transition` |
| HandlerProperties.DownloadProgressBounded | server/src/downloader.rs:74-109 | the downloader's values are non-decreasing within [15, 50] when the announced length is not exceeded |
| HandlerProperties.DownloadSuccessMonotone | server/src/handlers.rs:159-260 | under that condition a successful download's progress never decreases |
| HandlerProperties.UploadLoopFailure | server/src/handlers.rs:306-375 | a stream or write error gives exactly one `error` event and a 500 with its message; nothing is extracted, and the archive keeps what was written |
| HandlerProperties.EmptyUpload | server/src/handlers.rs:377-383 | an upload with no bytes sends `error` "Uploaded file is empty" and answers 400; the empty archive stays |
| HandlerProperties.UploadCheckFailure | server/src/handlers.rs:389-422 | with bytes received but an empty or uninspectable file, `uploaded` is sent, then the `error` and a 500; the archive holds the bytes |
| HandlerProperties.UploadSuccess | server/src/handlers.rs:262-440 | a 200 means every upload stage passed with a non-zero size, and the sender was taken |
| HandlerProperties.UploadSuccessEvents | server/src/handlers.rs:262-440 | a successful upload's log is the stages' in order, and its file system is the one cleanup left |
| HandlerProperties.UploadSuccessArchive | server/src/handlers.rs:283-375 | after a successful upload the archive remains iff its removal failed, and then it holds every byte uploaded, in order |
| HandlerProperties.DownloadShutdown | server/src/handlers.rs:142-152 | the download handler takes the sender and sends `transition` exactly when it answers 200 while the slot holds it |
| HandlerProperties.UploadShutdown | server/src/handlers.rs:142-152 | the same for the upload handler |
| HandlerProperties.TransitionAtMostOnce | server/src/handlers.rs:142-152 | a download followed by an upload sends `transition` once if either succeeded while the slot held the sender, and never twice |
| Launch.Argv | server/src/launch.rs:18-22 | the child runs `npx --yes node <script>` followed by the arguments in order |
| Launch.LaunchFoundry | server/src/launch.rs:7-42 | the supervisor's actions are `Trace` of its observations |
| Launch.PanicIsFinal | server/src/launch.rs:26 | after a spawn panic, later observations add nothing |
| Launch.NoShutdownPath | server/src/launch.rs:9-41 | every iteration adds an action, and only a failed spawn ends the loop |
| Launch.MissingScriptOnlySleeps | server/src/launch.rs:11-15 | while the script is missing the loop only sleeps 10 s at a time |
| Launch.TraceWellFormed | server/src/launch.rs:18-41 | each spawn uses the fixed argv and is followed by its exit, each exit by a 5 s sleep (whether wait succeeded or not), and a panic comes last |
| Launch.AtMostOneChild | server/src/launch.rs:18-28 | at every point at most one child is running, and none between iterations |
| ClassList.Split | client/funcs/changeToSuccess.ts:4 | `split(" ")` gives at least one token, none holding a space |
| ClassList.JoinSplit | client/funcs/changeToSuccess.ts:4 | joining what was split gives the text back |
| ClassList.SplitJoin | client/funcs/changeToSuccess.ts:12 | splitting what was joined gives the tokens back (`[""]` for none) |
| ClassList.GetClasses | client/funcs/changeToSuccess.ts:3-5 | a missing attribute reads as `[""]`; the tokens join back to the attribute |
| ClassList.WithoutHidden | client/funcs/changeToSuccess.ts:8 | the filter leaves no "hidden" and keeps tokens space-free |
| ClassList.WithoutHiddenCounts | client/funcs/changeToSuccess.ts:8 | the filter keeps every other token as often as it occurs |
| ClassList.ClassesMinusHidden | client/funcs/changeToSuccess.ts:7-9 | no "hidden", and every other class of the element as often as before |
| ClassList.RemoveHiddenClasses | client/funcs/changeToSuccess.ts:11-13 | after `removeHidden` the element has no "hidden" class and its other classes in order |
| ClassList.AddHiddenClasses | client/funcs/changeToSuccess.ts:15-17 | after `addHidden` "hidden" occurs exactly once, last, after the other classes in order |
| ClassList.HiddenAgain | client/funcs/changeToSuccess.ts:7-17 | dropping "hidden" after `addHidden` gives the classes kept before |
| ClassList.RemoveHiddenIdempotent | client/funcs/changeToSuccess.ts:11-13 | `removeHidden` twice equals once |
| ClassList.AddHiddenIdempotent | client/funcs/changeToSuccess.ts:15-17 | `addHidden` twice equals once |
| ClassList.RemoveAfterAdd | client/funcs/changeToSuccess.ts:11-17 | `removeHidden` after `addHidden` equals `removeHidden` |
| ClassList.MissingAttribute | client/funcs/changeToSuccess.ts:3-17 | with no class attribute, removing gives "" and adding gives " hidden" |

## Left out

- server/src/server.rs and server/src/main.rs are not part of this model. They cover Actix and Rocket wiring, static files, signal handlers and the server's use of the shutdown receiver.
- The `info` handler is not modelled: it answers a constant 200 "Server is running".
- The default export of `changeToSuccess.ts` is not modelled. It covers DOM lookups and the one-second polling of `/license`.
- The libraries are inputs, not models: reqwest, the zip crate, actix_multipart, serde_json and tokio's channels. What they return is a parameter.
- Text.FormatFixed: the `{:.1}` and `{:.2}` MB messages are rendered by exact half-up rounding of the byte count. `f32` rounding is not modelled.
- Downloader.NormalizedProgress: the value is computed in exact real arithmetic, not in `f64` narrowed to `f32`.
- Handlers.ScaledUpload: also exact real arithmetic, not `f32`.
- Downloader.TenPercentTick: the `f64` test `progress_percent % 10.0 < share` is replaced by its exact-arithmetic equivalent. Floating-point rounding at the boundary is not modelled.
- Downloader.DownloadFileFromUrl: `downloaded` and the other counters are unbounded, so `u64` overflow is not modelled.
- The `u64` byte counters in `Handlers.ReceiveParts` and `Handlers.ReceiveFields` are also unbounded.
- Handlers.VerifyDownload and Handlers.VerifyUpload: the size `fs::metadata` reports is an input rather than read from the model's file system. The archive path is shared and unguarded between concurrent requests, so another request can change the file between the write and the check. That race is not modelled. Nor is the archive's `tokio::fs::File` flushed or closed before the size is read (server/src/handlers.rs:389-422, server/src/downloader.rs:51-115), so the reported size may not yet include the last writes; this is a further reason the size is an input.
- Handlers.CompleteInstallation: the check for `/foundryvtt/resources/app/main.js` only logs and is not modelled.
- The mutex around the shutdown slot is not modelled; the slot is a field.
- Fs.FileSystem.WriteAll: a write either appends the whole chunk or fails having changed nothing, and its error is reported by the call that made it. The code differs in two ways. On a full disk, `write_all` writes the bytes that fit and then returns the error, so part of the failing chunk stays in the file. Both call sites also write through `tokio::fs::File` (server/src/downloader.rs:51-67, server/src/handlers.rs:287-351), which hands each write to a background task: `write_all` returns Ok once the bytes are handed over, an error from that write surfaces on the next write call, and, as nothing calls `flush` or `sync_all`, an error on the last chunk is never reported. Neither effect is modelled. The file clauses of these lemmas assume that every handed-off write lands whole: Downloader.StoppedTransfer and HandlerProperties.UploadLoopFailure (a failed run's archive holds exactly the earlier chunks), and Downloader.CompletedTransfer, UploadProperties.UploadWritesEverything, HandlerProperties.DownloadSuccessArchive and HandlerProperties.UploadSuccessArchive (a successful run's archive holds every byte).
- Extractor.ExtractZip: the files the archive unpacks into the target are not modelled. Neither is the size logging read from `fs::metadata`.
- Handlers.ReceiveField: the field name is only logged and is not kept.
- Events.SseStream: the 15-second keepalive timer and `select!`'s choice are an input sequence of wake-ups; the timing is not modelled.
- Events.EventChannel: the channel's capacity and which subscriber lags are not modelled. A lag reaches a subscriber as a receive error.
- Launch.LaunchFoundry: the sleeps are actions in the trace, not time. Inherited stdout and stderr are not modelled. The loop is modelled for as many iterations as there are observations.
- Initialization.EnsureDirectories: the file and directory counting is reduced to whether listing the directory fails.
- Initialization.EnsureDirectories: the commands at its end (server/src/initialization.rs:198-215: `id -u`, then `ip addr show`, `netstat -tulpn` or `ss -tulpn`) are not modelled. Each is run with `?`, so when one cannot be executed `ensure_directories` fails and start-up stops, whereas the model succeeds in that case.
- Initialization.Initialize: the banner's clock and the configuration summary only log and are not modelled. The system-information commands are modelled only by whether they could be executed.
- Config.TargetDirectory: `to_str().unwrap()` on a non-UTF-8 current directory is not modelled. The environment is a map of text, and a variable that is not valid Unicode counts as unset, as `env::var` treats it.
- Logging at every level is not modelled.

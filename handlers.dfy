/** The install pipeline's HTTP handlers: `download_and_extract` and
    `upload_and_extract`, and the helpers they share. Every I/O outcome the
    handlers depend on (directory creation, the HTTP transfer, the multipart
    stream, `fs::metadata`, the archive's contents, `remove_file`) is an input;
    what a handler does is the events it publishes, the response it returns,
    the file system it leaves and whether it took the shutdown sender. */
module Handlers {
  import opened Base
  import opened Text
  import opened Events
  import opened Fs
  import opened Utils
  import opened Config
  import opened Downloader
  import opened Extractor

  /** The JSON body of a response: `SuccessResponse` or `ErrorResponse`. */
  datatype Body = Message(message: string) | ErrorBody(error: string)

  /** What a handler produces: an HTTP response, or a panic (an `expect` in
      `get_target_directory`) that aborts the request. */
  datatype Response = Respond(status: nat, body: Body) | Aborted(message: string)

  function InternalError(error: string): (r: Response)
    ensures r.Respond? && r.status == 500 && r.body == ErrorBody(error)
  {
    Respond(500, ErrorBody(error))
  }

  /** The state the handlers share: the event channel, and the one-shot
      slot that holds the sender which tells the server to shut down.
      `shutdownSender` is true while the slot still holds the sender;
      `shutdownSignalled` records that the sender was used. */
  class AppState {
    const events: EventChannel
    var shutdownSender: bool
    var shutdownSignalled: bool

    constructor (events: EventChannel)
      ensures this.events == events && shutdownSender && !shutdownSignalled
    {
      this.events := events;
      shutdownSender := true;
      shutdownSignalled := false;
    }
  }

  /** The outcome of one stage: events sent, result, file system after. */
  datatype Phase<T> = Phase(events: seq<ProgressEvent>, result: T, fs: FsState)

  /** The outcome of a whole handler; `pending` is whether the shutdown slot
      still holds the sender afterwards. */
  datatype Handled = Handled(events: seq<ProgressEvent>, response: Response, fs: FsState, pending: bool)

  function Prepend(events: seq<ProgressEvent>, h: Handled): (r: Handled)
    ensures r.events == events + h.events && r.response == h.response && r.fs == h.fs && r.pending == h.pending
  {
    h.(events := events + h.events)
  }

  // ---------------------------------------------------------------------
  // ensure_target_directory

  /** The inputs of `ensure_target_directory`: the environment and current
      directory `get_target_directory` reads, the outcome of creating its
      fallback directory, and the outcome of the handler's own creation. */
  datatype TargetInputs = TargetInputs(env: Env, cwd: Option<string>, fallbackFault: Option<IoError>, createFault: Option<IoError>)

  function TargetErrorMessage(e: IoError): string
  {
    "Failed to create target directory: " + e.message
  }

  function EnsureTargetSpec(st: FsState, t: TargetInputs): Phase<Result<string, Response>>
  {
    var st1 := FsState(TargetDirectoryDirs(t.env, t.cwd, t.fallbackFault, st.dirs), st.files);
    match TargetDirectory(t.env, t.cwd, t.fallbackFault)
    case Err(m) => Phase([], Err(Aborted(m)), st1)
    case Ok(dir) =>
      if ExistsIn(st1, dir) then Phase([], Ok(dir), st1)
      else if t.createFault.Some? then
        Phase([ErrorEvent(TargetErrorMessage(t.createFault.value))], Err(InternalError(TargetErrorMessage(t.createFault.value))), st1)
      else Phase([], Ok(dir), FsState(st1.dirs + {dir}, st1.files))
  }

  method EnsureTargetDirectory(channel: EventChannel, fs: FileSystem, t: TargetInputs) returns (r: Result<string, Response>)
    modifies channel, fs
    ensures var s := EnsureTargetSpec(old(fs.State()), t);
      channel.sent == old(channel.sent) + s.events && r == s.result && fs.State() == s.fs
  {
    var target := GetTargetDirectory(t.env, t.cwd, fs, t.fallbackFault);
    if target.Err? {
      return Err(Aborted(target.error));
    }
    var dir := target.value;
    if !fs.Exists(dir) {
      var created := fs.CreateDirAll(dir, t.createFault);
      if created.Err? {
        var msg := "Failed to create target directory: " + created.error.message;
        channel.Send(New("error", msg, None));
        return Err(InternalError(msg));
      }
    }
    return Ok(dir);
  }

  // ---------------------------------------------------------------------
  // extract_and_cleanup

  const ExtractingArchive: ProgressEvent := New("extracting", "Extracting archive...", Some(60.0))
  const CleaningUp: ProgressEvent := New("cleanup", "Cleaning up temporary files...", Some(90.0))

  /** The directories after `extract_zip`: it creates a missing target when
      the archive exists. */
  function ExtractDirs(archive: string, target: string, st: FsState, o: ExtractOracle): set<string>
  {
    if ExistsIn(st, archive) && !ExistsIn(st, target) && o.createFault.None? then st.dirs + {target} else st.dirs
  }

  function CleanupSpec(archive: string, target: string, st: FsState, o: ExtractOracle, removeFault: Option<IoError>): Phase<Result<(), Response>>
  {
    var x := ExtractSpec(archive, ExistsIn(st, archive), ExistsIn(st, target), o);
    var dirs := ExtractDirs(archive, target, st, o);
    if x.result.Err? then
      var msg := "Failed to extract file: " + x.result.error.message;
      Phase([ExtractingArchive] + x.events + [ErrorEvent(msg)], Err(InternalError(msg)), FsState(dirs, st.files))
    else
      var files := if removeFault.None? && archive in st.files then st.files - {archive} else st.files;
      Phase([ExtractingArchive] + x.events + [CleaningUp], Ok(()), FsState(dirs, files))
  }

  method ExtractAndCleanup(archive: string, target: string, channel: EventChannel, fs: FileSystem, o: ExtractOracle, removeFault: Option<IoError>)
    returns (r: Result<(), Response>)
    modifies channel, fs
    ensures var s := CleanupSpec(archive, target, old(fs.State()), o, removeFault);
      channel.sent == old(channel.sent) + s.events && r == s.result && fs.State() == s.fs
  {
    ghost var sent0 := channel.sent;
    ghost var st := fs.State();
    ghost var x := ExtractSpec(archive, ExistsIn(st, archive), ExistsIn(st, target), o);
    channel.Send(ExtractingArchive);
    var extracted := ExtractZip(archive, target, channel, fs, o);
    if extracted.Err? {
      var msg := "Failed to extract file: " + extracted.error.message;
      channel.Send(ErrorEvent(msg));
      AppendAssoc(sent0, [ExtractingArchive], x.events);
      AppendAssoc(sent0, [ExtractingArchive] + x.events, [ErrorEvent(msg)]);
      return Err(InternalError(msg));
    }
    channel.Send(CleaningUp);
    AppendAssoc(sent0, [ExtractingArchive], x.events);
    AppendAssoc(sent0, [ExtractingArchive] + x.events, [CleaningUp]);
    var removed := fs.RemoveFile(archive, removeFault);
    // a failed removal is only logged
    return Ok(());
  }

  // ---------------------------------------------------------------------
  // complete_installation

  const Complete: ProgressEvent := New("complete", "Download and extraction complete!", Some(100.0))
  const Transition: ProgressEvent := New("transition", "Transitioning to Foundry VTT...", Some(100.0))

  /** The events of `complete_installation`, given whether the slot still
      held the sender. The check for Foundry's `main.js` only logs. */
  function CompleteEvents(pending: bool): seq<ProgressEvent>
  {
    [Complete] + (if pending then [Transition] else [])
  }

  method CompleteInstallation(app: AppState, message: string) returns (resp: Response)
    modifies app, app.events
    ensures app.events.sent == old(app.events.sent) + CompleteEvents(old(app.shutdownSender))
    ensures resp == Respond(200, Message(message))
    ensures !app.shutdownSender
    ensures app.shutdownSignalled == (old(app.shutdownSignalled) || old(app.shutdownSender))
  {
    ghost var sent0 := app.events.sent;
    app.events.Send(Complete);
    if app.shutdownSender {
      app.shutdownSender := false;
      app.shutdownSignalled := true;
      app.events.Send(Transition);
      AppendAssoc(sent0, [Complete], [Transition]);
    }
    return Respond(200, Message(message));
  }

  /** The tail both handlers share: extract and clean up, then complete. */
  function FinishSpec(archive: string, target: string, st: FsState, pending: bool, o: ExtractOracle, removeFault: Option<IoError>, message: string): Handled
  {
    var c := CleanupSpec(archive, target, st, o, removeFault);
    if c.result.Err? then Handled(c.events, c.result.error, c.fs, pending)
    else Handled(c.events + CompleteEvents(pending), Respond(200, Message(message)), c.fs, false)
  }

  method Finish(app: AppState, fs: FileSystem, archive: string, target: string, o: ExtractOracle, removeFault: Option<IoError>, message: string)
    returns (resp: Response)
    modifies app, app.events, fs
    ensures var h := FinishSpec(archive, target, old(fs.State()), old(app.shutdownSender), o, removeFault, message);
      && app.events.sent == old(app.events.sent) + h.events
      && resp == h.response && fs.State() == h.fs && app.shutdownSender == h.pending
      && app.shutdownSignalled == (old(app.shutdownSignalled) || (old(app.shutdownSender) && !h.pending))
  {
    ghost var sent0 := app.events.sent;
    ghost var c := CleanupSpec(archive, target, fs.State(), o, removeFault);
    var cleaned := ExtractAndCleanup(archive, target, app.events, fs, o, removeFault);
    if cleaned.Err? {
      return cleaned.error;
    }
    ghost var pending := app.shutdownSender;
    resp := CompleteInstallation(app, message);
    AppendAssoc(sent0, c.events, CompleteEvents(pending));
  }

  function ArchivePath(target: string): string
  {
    target + "/archive.zip"
  }

  // ---------------------------------------------------------------------
  // download_and_extract

  /** Everything `download_and_extract` depends on besides the URL. The size
      `fs::metadata` reports is an input of its own: the archive path is the
      same for every request, so another request may have changed the file
      between the download and the check. */
  datatype DownloadInputs = DownloadInputs(
    target: TargetInputs,
    request: Request,
    metadata: Result<nat, IoError>,
    extract: ExtractOracle,
    removeFault: Option<IoError>)

  function StartDownload(url: string): ProgressEvent
  {
    New("start", "Starting download from " + url, Some(0.0))
  }

  const DownloadingArchive: ProgressEvent := New("downloading", "Downloading archive...", Some(10.0))

  const DownloadedEmpty: string := "Downloaded file is empty"

  function DownloadComplete(size: nat): ProgressEvent
  {
    New("downloaded", "Download complete: " + NatToString(size) + " bytes", Some(50.0))
  }

  function DownloadedMessage(url: string): string
  {
    "Downloaded and extracted content from: " + url
  }

  /** The size check after the download: `None` when it passed. */
  function CheckDownloaded(metadata: Result<nat, IoError>): Option<string>
  {
    match metadata
    case Err(e) => Some("Failed to verify downloaded file: " + e.message)
    case Ok(size) => if size == 0 then Some(DownloadedEmpty) else None
  }

  function DownloadAndExtractSpec(url: string, st: FsState, pending: bool, d: DownloadInputs): Handled
  {
    var t := EnsureTargetSpec(st, d.target);
    if t.result.Err? then Handled([StartDownload(url)] + t.events, t.result.error, t.fs, pending)
    else Prepend([StartDownload(url)] + t.events, FetchSpec(url, t.result.value, t.fs, pending, d))
  }

  /** `download_file_from_url` into the archive path, and the handler's
      error event and response when it fails. */
  function AcquireSpec(dir: string, st: FsState, request: Request): Phase<Result<(), Response>>
  {
    var dl := DownloadSpec(request);
    var st2 := FsState(st.dirs, if dl.file.Some? then st.files[ArchivePath(dir) := dl.file.value] else st.files);
    if dl.result.Err? then
      var msg := "Failed to download file: " + dl.result.error;
      Phase([DownloadingArchive] + dl.events + [ErrorEvent(msg)], Err(InternalError(msg)), st2)
    else Phase([DownloadingArchive] + dl.events, Ok(()), st2)
  }

  /** The download handler once the target directory exists. */
  function FetchSpec(url: string, dir: string, st: FsState, pending: bool, d: DownloadInputs): Handled
  {
    var a := AcquireSpec(dir, st, d.request);
    if a.result.Err? then Handled(a.events, a.result.error, a.fs, pending)
    else Prepend(a.events, VerifyDownloadSpec(url, dir, a.fs, pending, d))
  }

  /** The download handler once the download succeeded: the size check,
      then extraction and completion. */
  function VerifyDownloadSpec(url: string, dir: string, st: FsState, pending: bool, d: DownloadInputs): Handled
  {
    if CheckDownloaded(d.metadata).Some? then
      var msg := CheckDownloaded(d.metadata).value;
      Handled([ErrorEvent(msg)], InternalError(msg), st, pending)
    else
      Prepend([DownloadComplete(d.metadata.value)],
              FinishSpec(ArchivePath(dir), dir, st, pending, d.extract, d.removeFault, DownloadedMessage(url)))
  }

  method DownloadAndExtract(url: string, app: AppState, fs: FileSystem, d: DownloadInputs) returns (resp: Response)
    modifies app, app.events, fs
    ensures var h := DownloadAndExtractSpec(url, old(fs.State()), old(app.shutdownSender), d);
      && app.events.sent == old(app.events.sent) + h.events
      && resp == h.response && fs.State() == h.fs && app.shutdownSender == h.pending
      && app.shutdownSignalled == (old(app.shutdownSignalled) || (old(app.shutdownSender) && !h.pending))
  {
    ghost var sent0 := app.events.sent;
    app.events.Send(StartDownload(url));
    ghost var t := EnsureTargetSpec(fs.State(), d.target);
    var target := EnsureTargetDirectory(app.events, fs, d.target);
    AppendAssoc(sent0, [StartDownload(url)], t.events);
    if target.Err? {
      return target.error;
    }
    ghost var f := FetchSpec(url, target.value, fs.State(), app.shutdownSender, d);
    resp := Fetch(url, app, fs, target.value, d);
    AppendAssoc(sent0, [StartDownload(url)] + t.events, f.events);
  }

  method Fetch(url: string, app: AppState, fs: FileSystem, dir: string, d: DownloadInputs) returns (resp: Response)
    modifies app, app.events, fs
    ensures var h := FetchSpec(url, dir, old(fs.State()), old(app.shutdownSender), d);
      && app.events.sent == old(app.events.sent) + h.events
      && resp == h.response && fs.State() == h.fs && app.shutdownSender == h.pending
      && app.shutdownSignalled == (old(app.shutdownSignalled) || (old(app.shutdownSender) && !h.pending))
  {
    ghost var sent0 := app.events.sent;
    ghost var a := AcquireSpec(dir, fs.State(), d.request);
    var acquired := Acquire(url, app.events, fs, dir, d.request);
    if acquired.Err? {
      return acquired.error;
    }
    ghost var v := VerifyDownloadSpec(url, dir, fs.State(), app.shutdownSender, d);
    resp := VerifyDownload(url, app, fs, dir, d);
    AppendAssoc(sent0, a.events, v.events);
  }

  method Acquire(url: string, channel: EventChannel, fs: FileSystem, dir: string, request: Request) returns (r: Result<(), Response>)
    modifies channel, fs
    ensures var a := AcquireSpec(dir, old(fs.State()), request);
      channel.sent == old(channel.sent) + a.events && r == a.result && fs.State() == a.fs
  {
    ghost var sent0 := channel.sent;
    ghost var dl := DownloadSpec(request);
    channel.Send(DownloadingArchive);
    var downloaded := DownloadFileFromUrl(url, ArchivePath(dir), channel, fs, request);
    AppendAssoc(sent0, [DownloadingArchive], dl.events);
    if downloaded.Err? {
      var msg := "Failed to download file: " + downloaded.error;
      channel.Send(ErrorEvent(msg));
      AppendAssoc(sent0, [DownloadingArchive] + dl.events, [ErrorEvent(msg)]);
      return Err(InternalError(msg));
    }
    return Ok(());
  }

  method VerifyDownload(url: string, app: AppState, fs: FileSystem, dir: string, d: DownloadInputs) returns (resp: Response)
    modifies app, app.events, fs
    ensures var h := VerifyDownloadSpec(url, dir, old(fs.State()), old(app.shutdownSender), d);
      && app.events.sent == old(app.events.sent) + h.events
      && resp == h.response && fs.State() == h.fs && app.shutdownSender == h.pending
      && app.shutdownSignalled == (old(app.shutdownSignalled) || (old(app.shutdownSender) && !h.pending))
  {
    var problem := CheckDownloaded(d.metadata);
    if problem.Some? {
      app.events.Send(ErrorEvent(problem.value));
      return InternalError(problem.value);
    }
    ghost var sent0 := app.events.sent;
    app.events.Send(DownloadComplete(d.metadata.value));
    ghost var h := FinishSpec(ArchivePath(dir), dir, fs.State(), app.shutdownSender, d.extract, d.removeFault, DownloadedMessage(url));
    resp := Finish(app, fs, ArchivePath(dir), dir, d.extract, d.removeFault, DownloadedMessage(url));
    AppendAssoc(sent0, [DownloadComplete(d.metadata.value)], h.events);
  }

  // ---------------------------------------------------------------------
  // upload_and_extract: the multipart loops

  /** A chunk of a multipart field: its bytes and the outcome of writing
      them, or a stream error. */
  datatype Part = Data(bytes: seq<byte>, writeFault: Option<IoError>) | PartError(message: string)

  /** A multipart field (its name is only logged), or a stream error. */
  datatype Field = Field(name: Option<string>, parts: seq<Part>) | FieldError(message: string)

  /** The state of the upload loops: `total_bytes`, `field_bytes`, the bytes
      in the file, the events sent, and the error that ended the loops. */
  datatype Upload = Upload(total: nat, fieldBytes: nat, written: seq<byte>, events: seq<ProgressEvent>, failure: Option<string>)

  const TickBytes: nat := 512 * 1024

  const UploadingFile: ProgressEvent := New("uploading", "Uploading file...", Some(10.0))

  /** `10 + field_bytes / MiB`, clamped at 50. */
  function ScaledUpload(fieldBytes: nat): (p: real)
    ensures 10.0 <= p <= 50.0
    ensures p == 50.0 <==> fieldBytes >= 40 * MiB
  {
    var p := 10.0 + fieldBytes as real / MiB as real;
    if p > 50.0 then 50.0 else p
  }

  function UploadTick(fieldBytes: nat): ProgressEvent
  {
    New("uploading", "Uploaded: " + Megabytes(fieldBytes, 1) + " MB", Some(ScaledUpload(fieldBytes)))
  }

  /** The progress report after a chunk: only on a multiple of 512 KiB. */
  function TickEvents(fieldBytes: nat): seq<ProgressEvent>
  {
    if fieldBytes % TickBytes == 0 then [UploadTick(fieldBytes)] else []
  }

  /** One iteration of the chunk loop. Both counters grow before the write,
      so a failed write still counts its bytes. */
  function PartStep(u: Upload, p: Part): Upload
  {
    if u.failure.Some? then u
    else match p
      case PartError(m) =>
        u.(events := u.events + [ErrorEvent("Upload error: " + m)], failure := Some("Upload error: " + m))
      case Data(bytes, fault) =>
        var fb := u.fieldBytes + |bytes|;
        var total := u.total + |bytes|;
        if fault.Some? then
          var m := "Error writing to file: " + fault.value.message;
          Upload(total, fb, u.written, u.events + [ErrorEvent(m)], Some(m))
        else Upload(total, fb, u.written + bytes, u.events + TickEvents(fb), None)
  }

  function PartsFold(u0: Upload, parts: seq<Part>): Upload
  {
    if parts == [] then u0
    else PartStep(PartsFold(u0, parts[..|parts| - 1]), parts[|parts| - 1])
  }

  /** The state at the start of a field's chunk loop. */
  function FieldStart(u: Upload): Upload
  {
    u.(fieldBytes := 0, events := u.events + [UploadingFile])
  }

  /** One iteration of the field loop. */
  function FieldStep(u: Upload, f: Field): Upload
  {
    if u.failure.Some? then u
    else match f
      case FieldError(m) =>
        u.(events := u.events + [ErrorEvent("Upload error: " + m)], failure := Some("Upload error: " + m))
      case Field(_, parts) => PartsFold(FieldStart(u), parts)
  }

  function FieldsFold(fields: seq<Field>): Upload
  {
    if fields == [] then Upload(0, 0, [], [], None)
    else FieldStep(FieldsFold(fields[..|fields| - 1]), fields[|fields| - 1])
  }

  lemma {:induction false} PartsStop(u0: Upload, parts: seq<Part>, k: nat)
    requires k <= |parts| && PartsFold(u0, parts[..k]).failure.Some?
    ensures PartsFold(u0, parts) == PartsFold(u0, parts[..k])
    decreases |parts|
  {
    if k < |parts| {
      assert parts[..|parts| - 1][..k] == parts[..k];
      PartsStop(u0, parts[..|parts| - 1], k);
    } else {
      assert parts[..k] == parts;
    }
  }

  lemma {:induction false} FieldsStop(fields: seq<Field>, k: nat)
    requires k <= |fields| && FieldsFold(fields[..k]).failure.Some?
    ensures FieldsFold(fields) == FieldsFold(fields[..k])
    decreases |fields|
  {
    if k < |fields| {
      assert fields[..|fields| - 1][..k] == fields[..k];
      FieldsStop(fields[..|fields| - 1], k);
    } else {
      assert fields[..k] == fields;
    }
  }

  /** The chunk loop of one field, from `u0` (whose events follow `prefix`
      on the channel) with `field_bytes` reset to 0. */
  method ReceiveParts(parts: seq<Part>, archive: string, channel: EventChannel, fs: FileSystem, total0: nat,
                      ghost u0: Upload, ghost prefix: seq<ProgressEvent>)
    returns (total: nat, failure: Option<string>)
    requires u0.failure.None? && u0.fieldBytes == 0 && u0.total == total0
    requires archive in fs.files && fs.files[archive] == u0.written
    requires channel.sent == prefix + u0.events
    modifies channel, fs
    ensures var u := PartsFold(u0, parts);
      && total == u.total && failure == u.failure
      && channel.sent == prefix + u.events
      && fs.dirs == old(fs.dirs) && fs.files == old(fs.files)[archive := u.written]
  {
    total, failure := total0, None;
    var fieldBytes: nat := 0;
    var i := 0;
    while i < |parts|
      invariant 0 <= i <= |parts|
      invariant failure == None && PartsFold(u0, parts[..i]).failure.None?
      invariant total == PartsFold(u0, parts[..i]).total && fieldBytes == PartsFold(u0, parts[..i]).fieldBytes
      invariant channel.sent == prefix + PartsFold(u0, parts[..i]).events
      invariant fs.dirs == old(fs.dirs) && fs.files == old(fs.files)[archive := PartsFold(u0, parts[..i]).written]
    {
      ghost var u := PartsFold(u0, parts[..i]);
      assert parts[..i + 1][..i] == parts[..i];
      assert PartsFold(u0, parts[..i + 1]) == PartStep(u, parts[i]);
      total, fieldBytes, failure := ReceivePart(parts[i], archive, channel, fs, total, fieldBytes, u, prefix);
      if failure.Some? {
        PartsStop(u0, parts, i + 1);
        return;
      }
      i := i + 1;
    }
    assert parts[..i] == parts;
  }

  /** One chunk: count it, write it, report progress. */
  method ReceivePart(part: Part, archive: string, channel: EventChannel, fs: FileSystem, total0: nat, fieldBytes0: nat,
                     ghost u: Upload, ghost prefix: seq<ProgressEvent>)
    returns (total: nat, fieldBytes: nat, failure: Option<string>)
    requires u.failure.None? && u.total == total0 && u.fieldBytes == fieldBytes0
    requires archive in fs.files && fs.files[archive] == u.written
    requires channel.sent == prefix + u.events
    modifies channel, fs
    ensures var v := PartStep(u, part);
      && total == v.total && fieldBytes == v.fieldBytes && failure == v.failure
      && channel.sent == prefix + v.events
      && fs.dirs == old(fs.dirs) && fs.files == old(fs.files)[archive := v.written]
  {
    total, fieldBytes := total0, fieldBytes0;
    match part {
      case PartError(m) =>
        channel.Send(ErrorEvent("Upload error: " + m));
        AppendAssoc(prefix, u.events, [ErrorEvent("Upload error: " + m)]);
        return total, fieldBytes, Some("Upload error: " + m);
      case Data(bytes, fault) =>
        fieldBytes := fieldBytes + |bytes|;
        total := total + |bytes|;
        var w := fs.WriteAll(archive, bytes, fault);
        if w.Err? {
          var m := "Error writing to file: " + w.error.message;
          channel.Send(ErrorEvent(m));
          AppendAssoc(prefix, u.events, [ErrorEvent(m)]);
          return total, fieldBytes, Some(m);
        }
        ReportUpload(channel, fieldBytes);
        AppendAssoc(prefix, u.events, TickEvents(fieldBytes));
        return total, fieldBytes, None;
    }
  }

  /** The progress check after a chunk was written. */
  method ReportUpload(channel: EventChannel, fieldBytes: nat)
    modifies channel
    ensures channel.sent == old(channel.sent) + TickEvents(fieldBytes)
  {
    if fieldBytes % (512 * 1024) == 0 {
      channel.Send(New("uploading", "Uploaded: " + Megabytes(fieldBytes, 1) + " MB", Some(ScaledUpload(fieldBytes))));
    }
  }

  /** The field loop. */
  method ReceiveFields(fields: seq<Field>, archive: string, channel: EventChannel, fs: FileSystem)
    returns (total: nat, failure: Option<string>)
    requires archive in fs.files && fs.files[archive] == []
    modifies channel, fs
    ensures var u := FieldsFold(fields);
      && total == u.total && failure == u.failure
      && channel.sent == old(channel.sent) + u.events
      && fs.dirs == old(fs.dirs) && fs.files == old(fs.files)[archive := u.written]
  {
    ghost var prefix := channel.sent;
    total, failure := 0, None;
    var i := 0;
    while i < |fields|
      invariant 0 <= i <= |fields|
      invariant failure == None && FieldsFold(fields[..i]).failure.None?
      invariant total == FieldsFold(fields[..i]).total
      invariant channel.sent == prefix + FieldsFold(fields[..i]).events
      invariant fs.dirs == old(fs.dirs) && fs.files == old(fs.files)[archive := FieldsFold(fields[..i]).written]
    {
      ghost var u := FieldsFold(fields[..i]);
      assert fields[..i + 1][..i] == fields[..i];
      assert FieldsFold(fields[..i + 1]) == FieldStep(u, fields[i]);
      total, failure := ReceiveField(fields[i], archive, channel, fs, total, u, prefix);
      if failure.Some? {
        FieldsStop(fields, i + 1);
        return;
      }
      i := i + 1;
    }
    assert fields[..i] == fields;
  }

  /** One field: announce it, then run its chunk loop. */
  method ReceiveField(field: Field, archive: string, channel: EventChannel, fs: FileSystem, total0: nat,
                      ghost u: Upload, ghost prefix: seq<ProgressEvent>)
    returns (total: nat, failure: Option<string>)
    requires u.failure.None? && u.total == total0
    requires archive in fs.files && fs.files[archive] == u.written
    requires channel.sent == prefix + u.events
    modifies channel, fs
    ensures var v := FieldStep(u, field);
      && total == v.total && failure == v.failure
      && channel.sent == prefix + v.events
      && fs.dirs == old(fs.dirs) && fs.files == old(fs.files)[archive := v.written]
  {
    match field {
      case FieldError(m) =>
        channel.Send(ErrorEvent("Upload error: " + m));
        AppendAssoc(prefix, u.events, [ErrorEvent("Upload error: " + m)]);
        return total0, Some("Upload error: " + m);
      case Field(_, parts) =>
        channel.Send(UploadingFile);
        AppendAssoc(prefix, u.events, [UploadingFile]);
        total, failure := ReceiveParts(parts, archive, channel, fs, total0, FieldStart(u), prefix);
    }
  }

  // ---------------------------------------------------------------------
  // upload_and_extract

  /** Everything `upload_and_extract` depends on; as for a download, the
      size `fs::metadata` reports is an input. */
  datatype UploadInputs = UploadInputs(
    target: TargetInputs,
    createFault: Option<IoError>,
    fields: seq<Field>,
    metadata: Result<nat, IoError>,
    extract: ExtractOracle,
    removeFault: Option<IoError>)

  const StartUpload: ProgressEvent := New("start", "Starting file upload process", Some(0.0))
  const UploadedEmpty: string := "Uploaded file is empty"
  const UploadedMessage: string := "Successfully uploaded and extracted content"

  function UploadComplete(total: nat): ProgressEvent
  {
    New("uploaded", "Upload complete: " + Megabytes(total, 2) + " MB", Some(50.0))
  }

  /** The size check after the upload: `None` when it passed. */
  function CheckUploaded(metadata: Result<nat, IoError>): Option<string>
  {
    match metadata
    case Err(e) => Some("Failed to verify uploaded file: " + e.message)
    case Ok(size) => if size == 0 then Some(UploadedEmpty) else None
  }

  /** The upload after the target directory and the empty file exist. */
  function ReceivedSpec(dir: string, st: FsState, pending: bool, u: UploadInputs): Handled
  {
    var r := FieldsFold(u.fields);
    var st2 := FsState(st.dirs, st.files[ArchivePath(dir) := r.written]);
    if r.failure.Some? then Handled(r.events, InternalError(r.failure.value), st2, pending)
    else Prepend(r.events, VerifyUploadSpec(dir, st2, pending, u, r.total))
  }

  /** The upload once every chunk was written: the two size checks, then
      extraction and completion. */
  function VerifyUploadSpec(dir: string, st: FsState, pending: bool, u: UploadInputs, total: nat): Handled
  {
    if total == 0 then Handled([ErrorEvent(UploadedEmpty)], Respond(400, ErrorBody(UploadedEmpty)), st, pending)
    else if CheckUploaded(u.metadata).Some? then
      var msg := CheckUploaded(u.metadata).value;
      Handled([UploadComplete(total), ErrorEvent(msg)], InternalError(msg), st, pending)
    else
      Prepend([UploadComplete(total)], FinishSpec(ArchivePath(dir), dir, st, pending, u.extract, u.removeFault, UploadedMessage))
  }

  function UploadAndExtractSpec(st: FsState, pending: bool, u: UploadInputs): Handled
  {
    var t := EnsureTargetSpec(st, u.target);
    if t.result.Err? then Handled([StartUpload] + t.events, t.result.error, t.fs, pending)
    else if u.createFault.Some? then
      var msg := "Failed to create file: " + u.createFault.value.message;
      Handled([StartUpload] + t.events + [ErrorEvent(msg)], InternalError(msg), t.fs, pending)
    else
      var st1 := FsState(t.fs.dirs, t.fs.files[ArchivePath(t.result.value) := []]);
      Prepend([StartUpload] + t.events, ReceivedSpec(t.result.value, st1, pending, u))
  }

  method UploadAndExtract(app: AppState, fs: FileSystem, u: UploadInputs) returns (resp: Response)
    modifies app, app.events, fs
    ensures var h := UploadAndExtractSpec(old(fs.State()), old(app.shutdownSender), u);
      && app.events.sent == old(app.events.sent) + h.events
      && resp == h.response && fs.State() == h.fs && app.shutdownSender == h.pending
      && app.shutdownSignalled == (old(app.shutdownSignalled) || (old(app.shutdownSender) && !h.pending))
  {
    ghost var sent0 := app.events.sent;
    app.events.Send(StartUpload);
    ghost var t := EnsureTargetSpec(fs.State(), u.target);
    var target := EnsureTargetDirectory(app.events, fs, u.target);
    AppendAssoc(sent0, [StartUpload], t.events);
    if target.Err? {
      return target.error;
    }
    var created := fs.Create(ArchivePath(target.value), u.createFault);
    if created.Err? {
      var msg := "Failed to create file: " + created.error.message;
      app.events.Send(ErrorEvent(msg));
      AppendAssoc(sent0, [StartUpload] + t.events, [ErrorEvent(msg)]);
      return InternalError(msg);
    }
    ghost var r := ReceivedSpec(target.value, fs.State(), app.shutdownSender, u);
    resp := ReceiveAndExtract(app, fs, target.value, u);
    AppendAssoc(sent0, [StartUpload] + t.events, r.events);
  }

  method ReceiveAndExtract(app: AppState, fs: FileSystem, dir: string, u: UploadInputs) returns (resp: Response)
    requires ArchivePath(dir) in fs.files && fs.files[ArchivePath(dir)] == []
    modifies app, app.events, fs
    ensures var h := ReceivedSpec(dir, old(fs.State()), old(app.shutdownSender), u);
      && app.events.sent == old(app.events.sent) + h.events
      && resp == h.response && fs.State() == h.fs && app.shutdownSender == h.pending
      && app.shutdownSignalled == (old(app.shutdownSignalled) || (old(app.shutdownSender) && !h.pending))
  {
    ghost var sent0 := app.events.sent;
    var total, failure := ReceiveFields(u.fields, ArchivePath(dir), app.events, fs);
    if failure.Some? {
      return InternalError(failure.value);
    }
    ghost var v := VerifyUploadSpec(dir, fs.State(), app.shutdownSender, u, total);
    resp := VerifyUpload(app, fs, dir, u, total);
    AppendAssoc(sent0, FieldsFold(u.fields).events, v.events);
  }

  method VerifyUpload(app: AppState, fs: FileSystem, dir: string, u: UploadInputs, total: nat) returns (resp: Response)
    modifies app, app.events, fs
    ensures var h := VerifyUploadSpec(dir, old(fs.State()), old(app.shutdownSender), u, total);
      && app.events.sent == old(app.events.sent) + h.events
      && resp == h.response && fs.State() == h.fs && app.shutdownSender == h.pending
      && app.shutdownSignalled == (old(app.shutdownSignalled) || (old(app.shutdownSender) && !h.pending))
  {
    if total == 0 {
      app.events.Send(ErrorEvent(UploadedEmpty));
      return Respond(400, ErrorBody(UploadedEmpty));
    }
    ghost var sent0 := app.events.sent;
    app.events.Send(UploadComplete(total));
    var problem := CheckUploaded(u.metadata);
    if problem.Some? {
      app.events.Send(ErrorEvent(problem.value));
      AppendAssoc(sent0, [UploadComplete(total)], [ErrorEvent(problem.value)]);
      return InternalError(problem.value);
    }
    ghost var h := FinishSpec(ArchivePath(dir), dir, fs.State(), app.shutdownSender, u.extract, u.removeFault, UploadedMessage);
    resp := Finish(app, fs, ArchivePath(dir), dir, u.extract, u.removeFault, UploadedMessage);
    AppendAssoc(sent0, [UploadComplete(total)], h.events);
  }
}

/** `ExtractorService::extract_zip`: checks, directory creation, and the
    blocking worker that opens and unpacks the archive. The zip library and
    the worker's join are oracles; what is modelled is the error mapping and
    the events sent on each path. */
module Extractor {
  import opened Base
  import opened Text
  import opened Events
  import opened Fs

  /** What `ZipArchive::new` makes of the opened file: not an archive (with
      the library's message), or an archive of `fileCount` entries whose
      `extract` then succeeds or fails with a message. */
  datatype ZipOutcome = NotAZip(message: string) | Opened(fileCount: nat, extract: Result<(), string>)

  /** The worker's calls, during any of which it may panic. */
  datatype Stage = OpenFile | ReadArchive | Unpack

  /** A worker panic: where, and what the join error prints. */
  datatype Panic = Panic(stage: Stage, message: string)

  /** The outcomes of every call the extractor makes that the model does not
      compute itself. */
  datatype ExtractOracle = ExtractOracle(
    createFault: Option<IoError>,
    openFault: Option<IoError>,
    zip: ZipOutcome,
    panic: Option<Panic>)

  /** How the worker ended: it returned, or it panicked. */
  datatype TaskOutcome = Returned(result: Result<(), IoError>) | Panicked(message: string)

  /** What one run sends and how it ends. */
  datatype Extraction<R> = Extraction(events: seq<ProgressEvent>, result: R)

  predicate PanicsIn(o: ExtractOracle, stage: Stage)
  {
    o.panic.Some? && o.panic.value.stage == stage
  }

  function NotFoundMessage(archivePath: string): string
  {
    "Archive file not found at path: " + archivePath
  }

  function ExtractingEvent(fileCount: nat): (e: ProgressEvent)
    ensures e.eventType == "extracting" && e.progress == Some(65.0)
  {
    New("extracting", "Extracting " + NatToString(fileCount) + " files...", Some(65.0))
  }

  function ExtractedEvent(): (e: ProgressEvent)
    ensures e.eventType == "extracted" && e.progress == Some(85.0)
  {
    New("extracted", "ZIP extraction completed successfully", Some(85.0))
  }

  /** The blocking worker: open, read the archive, extract. */
  function TaskSpec(o: ExtractOracle): Extraction<TaskOutcome>
  {
    if PanicsIn(o, OpenFile) then Extraction([], Panicked(o.panic.value.message))
    else if o.openFault.Some? then
      Extraction([ErrorEvent("Failed to open archive file: " + o.openFault.value.message)], Returned(Err(o.openFault.value)))
    else if PanicsIn(o, ReadArchive) then Extraction([], Panicked(o.panic.value.message))
    else match o.zip
      case NotAZip(m) =>
        Extraction([ErrorEvent("Invalid ZIP file: " + m)], Returned(Err(IoError(InvalidData, "Invalid ZIP file: " + m))))
      case Opened(n, extract) =>
        if PanicsIn(o, Unpack) then Extraction([ExtractingEvent(n)], Panicked(o.panic.value.message))
        else if extract.Ok? then Extraction([ExtractingEvent(n), ExtractedEvent()], Returned(Ok(())))
        else Extraction([ExtractingEvent(n), ErrorEvent("Extraction failed: " + extract.error)],
                        Returned(Err(IoError(Other, "Extraction failed: " + extract.error))))
  }

  /** The whole call, given whether the archive and the target exist. */
  function ExtractSpec(archivePath: string, archiveExists: bool, targetExists: bool, o: ExtractOracle): Extraction<Result<(), IoError>>
  {
    if !archiveExists then
      Extraction([ErrorEvent(NotFoundMessage(archivePath))], Err(IoError(NotFound, NotFoundMessage(archivePath))))
    else if !targetExists && o.createFault.Some? then Extraction([], Err(o.createFault.value))
    else
      var task := TaskSpec(o);
      match task.result
      case Returned(r) => Extraction(task.events, r)
      case Panicked(m) =>
        Extraction(task.events + [ErrorEvent("Extraction thread panicked: " + m)],
                   Err(IoError(Other, "Extraction thread panicked: " + m)))
  }

  /** The worker. A panic is modelled by returning `Panicked` at the stage
      the oracle names; the events it sent before stay sent. */
  method RunTask(channel: EventChannel, o: ExtractOracle) returns (outcome: TaskOutcome)
    modifies channel
    ensures channel.sent == old(channel.sent) + TaskSpec(o).events
    ensures outcome == TaskSpec(o).result
  {
    if PanicsIn(o, OpenFile) {
      return Panicked(o.panic.value.message);
    }
    if o.openFault.Some? {
      channel.Send(New("error", "Failed to open archive file: " + o.openFault.value.message, None));
      return Returned(Err(o.openFault.value));
    }
    if PanicsIn(o, ReadArchive) {
      return Panicked(o.panic.value.message);
    }
    match o.zip {
      case NotAZip(m) =>
        channel.Send(New("error", "Invalid ZIP file: " + m, None));
        return Returned(Err(IoError(InvalidData, "Invalid ZIP file: " + m)));
      case Opened(n, extract) =>
        channel.Send(New("extracting", "Extracting " + NatToString(n) + " files...", Some(65.0)));
        if PanicsIn(o, Unpack) {
          return Panicked(o.panic.value.message);
        }
        if extract.Ok? {
          channel.Send(New("extracted", "ZIP extraction completed successfully", Some(85.0)));
          return Returned(Ok(()));
        }
        channel.Send(New("error", "Extraction failed: " + extract.error, None));
        return Returned(Err(IoError(Other, "Extraction failed: " + extract.error)));
    }
  }

  /** `extract_zip`. The file system records the target directory when it is
      created; the files the archive unpacks into it are not modelled. */
  method ExtractZip(archivePath: string, targetDirectory: string, channel: EventChannel, fs: FileSystem, o: ExtractOracle)
    returns (r: Result<(), IoError>)
    modifies channel, fs
    ensures var spec := ExtractSpec(archivePath, old(fs.Exists(archivePath)), old(fs.Exists(targetDirectory)), o);
      channel.sent == old(channel.sent) + spec.events && r == spec.result
    ensures fs.files == old(fs.files)
    ensures fs.dirs == if old(fs.Exists(archivePath)) && !old(fs.Exists(targetDirectory)) && o.createFault.None?
                       then old(fs.dirs) + {targetDirectory} else old(fs.dirs)
  {
    if !fs.Exists(archivePath) {
      var msg := "Archive file not found at path: " + archivePath;
      channel.Send(New("error", msg, None));
      return Err(IoError(NotFound, msg));
    }
    if !fs.Exists(targetDirectory) {
      var created := fs.CreateDirAll(targetDirectory, o.createFault);
      if created.Err? {
        return Err(created.error);
      }
    }
    var outcome := RunTask(channel, o);
    match outcome {
      case Returned(res) =>
        r := res;
      case Panicked(m) =>
        channel.Send(New("error", "Extraction thread panicked: " + m, None));
        r := Err(IoError(Other, "Extraction thread panicked: " + m));
    }
  }

  // ---------------------------------------------------------------------
  // Properties

  /** Extraction succeeds exactly when the archive exists, the target exists
      or could be created, the file opens, it is an archive, unpacking it
      succeeds, and the worker does not panic; success sends `extracting` at
      65 then `extracted` at 85 and nothing else. */
  lemma {:induction false} ExtractOkIff(archivePath: string, archiveExists: bool, targetExists: bool, o: ExtractOracle)
    ensures var x := ExtractSpec(archivePath, archiveExists, targetExists, o);
      x.result.Ok? <==>
        && archiveExists && (targetExists || o.createFault.None?)
        && o.openFault.None? && o.panic.None?
        && o.zip.Opened? && o.zip.extract.Ok?
    ensures var x := ExtractSpec(archivePath, archiveExists, targetExists, o);
      x.result.Ok? ==>
        (&& |x.events| == 2
         && x.events[0].eventType == "extracting" && x.events[0].progress == Some(65.0)
         && x.events[1].eventType == "extracted" && x.events[1].progress == Some(85.0))
  {
  }

  /** Which failure maps to which error kind: a missing archive to NotFound,
      a file that is not an archive to InvalidData with "Invalid ZIP file: ",
      an unpacking failure and a worker panic to Other; an open or
      directory-creation failure passes through unchanged. The worker
      panics when the oracle puts a panic at opening the file, at reading
      the archive once the file opened, or at unpacking once it was read as
      an archive; the panic's message is then carried into the error. */
  lemma {:induction false} ExtractErrorKinds(archivePath: string, archiveExists: bool, targetExists: bool, o: ExtractOracle)
    ensures var r := ExtractSpec(archivePath, archiveExists, targetExists, o).result;
      && (!archiveExists ==> r == Err(IoError(NotFound, NotFoundMessage(archivePath))))
      && (archiveExists && !targetExists && o.createFault.Some? ==> r == Err(o.createFault.value))
      && (archiveExists && (targetExists || o.createFault.None?) && o.panic.None? ==>
            && (o.openFault.Some? ==> r == Err(o.openFault.value))
            && (o.openFault.None? && o.zip.NotAZip? ==> r == Err(IoError(InvalidData, "Invalid ZIP file: " + o.zip.message)))
            && (o.openFault.None? && o.zip.Opened? && o.zip.extract.Err? ==>
                  r == Err(IoError(Other, "Extraction failed: " + o.zip.extract.error))))
      && (archiveExists && (targetExists || o.createFault.None?) && TaskSpec(o).result.Panicked? ==>
            r == Err(IoError(Other, "Extraction thread panicked: " + TaskSpec(o).result.message)))
      && (archiveExists && (targetExists || o.createFault.None?) && o.panic.Some? && r.Err? && r.error.kind != Other ==>
            o.openFault.Some? || o.zip.NotAZip?)
    ensures TaskSpec(o).result.Panicked? <==>
      || PanicsIn(o, OpenFile)
      || (o.openFault.None? && PanicsIn(o, ReadArchive))
      || (o.openFault.None? && o.zip.Opened? && PanicsIn(o, Unpack))
    ensures TaskSpec(o).result.Panicked? ==> TaskSpec(o).result.message == o.panic.value.message
  {
  }

  /** Every failure sends exactly one `error` event, except a failure to
      create the target directory, which sends none; a success sends none. */
  lemma {:induction false} ExtractErrorEvents(archivePath: string, archiveExists: bool, targetExists: bool, o: ExtractOracle)
    ensures var x := ExtractSpec(archivePath, archiveExists, targetExists, o);
      CountType(x.events, "error") ==
        if x.result.Ok? || (archiveExists && !targetExists && o.createFault.Some?) then 0 else 1
  {
    if !archiveExists {
      CountTypeSingle(ErrorEvent(NotFoundMessage(archivePath)), "error");
    } else if targetExists || o.createFault.None? {
      var task := TaskSpec(o);
      TaskErrorCount(o);
      if task.result.Panicked? {
        var err := ErrorEvent("Extraction thread panicked: " + task.result.message);
        CountTypeAppend(task.events, [err], "error");
        CountTypeSingle(err, "error");
      }
    }
  }

  /** The worker sends one `error` event exactly when it returns an error,
      and none when it panics or succeeds. */
  lemma {:induction false} TaskErrorCount(o: ExtractOracle)
    ensures CountType(TaskSpec(o).events, "error") ==
      if TaskSpec(o).result.Returned? && TaskSpec(o).result.result.Err? then 1 else 0
  {
    var events := TaskSpec(o).events;
    if |events| == 2 {
      assert events == [events[0]] + [events[1]];
      CountTypeAppend([events[0]], [events[1]], "error");
      CountTypeSingle(events[0], "error");
      CountTypeSingle(events[1], "error");
    } else if |events| == 1 {
      assert events == [events[0]];
      CountTypeSingle(events[0], "error");
    }
  }

  /** A missing archive stops the call before anything is opened: whatever
      the oracle says, one `error` event and NotFound. */
  lemma {:induction false} MissingArchiveIgnoresOracle(archivePath: string, targetExists: bool, o1: ExtractOracle, o2: ExtractOracle)
    ensures ExtractSpec(archivePath, false, targetExists, o1) == ExtractSpec(archivePath, false, targetExists, o2)
    ensures ExtractSpec(archivePath, false, targetExists, o1).events == [ErrorEvent(NotFoundMessage(archivePath))]
  {
  }

  /** The worker reports 65, then 85 when unpacking succeeds. */
  lemma {:induction false} TaskProgress(o: ExtractOracle)
    ensures var p := Progresses(TaskSpec(o).events);
      p == [] || p == [65.0] || p == [65.0, 85.0]
  {
    var events := TaskSpec(o).events;
    if |events| == 2 {
      ProgressesAppend([events[0]], [events[1]]);
      ProgressesSingle(events[0]);
      ProgressesSingle(events[1]);
      assert events == [events[0]] + [events[1]];
    } else if |events| == 1 {
      ProgressesSingle(events[0]);
      assert events == [events[0]];
    }
  }

  /** The values the extractor reports never decrease: 65 then 85. */
  lemma {:induction false} ExtractProgress(archivePath: string, archiveExists: bool, targetExists: bool, o: ExtractOracle)
    ensures var p := Progresses(ExtractSpec(archivePath, archiveExists, targetExists, o).events);
      p == [] || p == [65.0] || p == [65.0, 85.0]
  {
    var x := ExtractSpec(archivePath, archiveExists, targetExists, o);
    if !archiveExists {
      ProgressesSingle(x.events[0]);
    } else if targetExists || o.createFault.None? {
      var task := TaskSpec(o);
      TaskProgress(o);
      if task.result.Panicked? {
        var err := ErrorEvent("Extraction thread panicked: " + task.result.message);
        ProgressesAppend(task.events, [err]);
        ProgressesSingle(err);
      }
    }
  }

  /** The extractor sends only `extracting`, `extracted` and `error` events. */
  lemma {:induction false} ExtractEventTypes(archivePath: string, archiveExists: bool, targetExists: bool, o: ExtractOracle)
    ensures var e := ExtractSpec(archivePath, archiveExists, targetExists, o).events;
      forall i :: 0 <= i < |e| ==> e[i].eventType in {"extracting", "extracted", "error"}
  {
  }
}

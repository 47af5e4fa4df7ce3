/** What the two install handlers promise, stated on their specifications:
    how each failure shows in the events and the response, what the cleanup
    removes, the order of the progress values of a successful download, and
    that the server is told to shut down at most once. */
module HandlerProperties {
  import opened Base
  import opened Events
  import opened Fs
  import opened Downloader
  import opened Extractor
  import opened Handlers
  import opened UploadProperties

  predicate Succeeded(r: Response)
  {
    r.Respond? && r.status == 200
  }

  // ---------------------------------------------------------------------
  // extract_and_cleanup and complete_installation

  /** The cleanup fails exactly when extraction fails, with the extractor's
      message; the archive is gone afterwards exactly when extraction
      succeeded and its removal did (a failed removal is still a success);
      nothing else in the file system changes. */
  lemma {:induction false} CleanupOutcome(archive: string, target: string, st: FsState, o: ExtractOracle, removeFault: Option<IoError>)
    ensures var c := CleanupSpec(archive, target, st, o, removeFault);
      var x := ExtractSpec(archive, ExistsIn(st, archive), ExistsIn(st, target), o);
      && (c.result.Ok? <==> x.result.Ok?)
      && (c.result.Err? ==> c.result.error == InternalError("Failed to extract file: " + x.result.error.message))
      && (archive in c.fs.files <==> archive in st.files && (x.result.Err? || removeFault.Some?))
      && (forall p :: p != archive ==> (p in c.fs.files <==> p in st.files) && (p in st.files ==> c.fs.files[p] == st.files[p]))
  {
  }

  /** A failed extraction shows as two `error` events, the extractor's and
      the handler's, except when the extractor could not create the target
      directory and sent none itself; a successful one shows none. */
  lemma {:induction false} CleanupErrorEvents(archive: string, target: string, st: FsState, o: ExtractOracle, removeFault: Option<IoError>)
    ensures var c := CleanupSpec(archive, target, st, o, removeFault);
      CountType(c.events, "error") ==
        if c.result.Ok? then 0
        else if ExistsIn(st, archive) && !ExistsIn(st, target) && o.createFault.Some? then 1
        else 2
  {
    var c := CleanupSpec(archive, target, st, o, removeFault);
    var x := ExtractSpec(archive, ExistsIn(st, archive), ExistsIn(st, target), o);
    ExtractErrorEvents(archive, ExistsIn(st, archive), ExistsIn(st, target), o);
    var last := c.events[|c.events| - 1];
    assert c.events == [ExtractingArchive] + x.events + [last];
    CountTypeAppend([ExtractingArchive] + x.events, [last], "error");
    CountTypeAppend([ExtractingArchive], x.events, "error");
    CountTypeSingle(ExtractingArchive, "error");
    CountTypeSingle(last, "error");
  }

  /** Extraction and cleanup never send `transition`. */
  lemma {:induction false} CleanupSendsNoTransition(archive: string, target: string, st: FsState, o: ExtractOracle, removeFault: Option<IoError>)
    ensures CountType(CleanupSpec(archive, target, st, o, removeFault).events, "transition") == 0
  {
    var c := CleanupSpec(archive, target, st, o, removeFault);
    var x := ExtractSpec(archive, ExistsIn(st, archive), ExistsIn(st, target), o);
    ExtractEventTypes(archive, ExistsIn(st, archive), ExistsIn(st, target), o);
    CountTypeAbsent(x.events, "transition");
    var last := c.events[|c.events| - 1];
    assert c.events == [ExtractingArchive] + x.events + [last];
    CountTypeAppend([ExtractingArchive] + x.events, [last], "transition");
    CountTypeAppend([ExtractingArchive], x.events, "transition");
    CountTypeSingle(ExtractingArchive, "transition");
    CountTypeSingle(last, "transition");
  }

  /** `complete_installation` sends `transition` once if it took the sender. */
  lemma {:induction false} CompleteTransitions(pending: bool)
    ensures CountType(CompleteEvents(pending), "transition") == if pending then 1 else 0
  {
    CountTypeSingle(Complete, "transition");
    if pending {
      CountTypeAppend([Complete], [Transition], "transition");
      CountTypeSingle(Transition, "transition");
    } else {
      assert CompleteEvents(pending) == [Complete];
    }
  }

  /** The shared tail sends `transition` only when it succeeds while the
      slot still holds the sender, and empties the slot exactly then. */
  lemma {:induction false} FinishShutdown(archive: string, target: string, st: FsState, pending: bool, o: ExtractOracle, removeFault: Option<IoError>, message: string)
    ensures var h := FinishSpec(archive, target, st, pending, o, removeFault, message);
      && h.response.Respond?
      && (Succeeded(h.response) <==> CleanupSpec(archive, target, st, o, removeFault).result.Ok?)
      && (Succeeded(h.response) ==> h.response == Respond(200, Message(message)))
      && h.pending == (pending && !Succeeded(h.response))
      && CountType(h.events, "transition") == if pending && Succeeded(h.response) then 1 else 0
  {
    var c := CleanupSpec(archive, target, st, o, removeFault);
    CleanupSendsNoTransition(archive, target, st, o, removeFault);
    if c.result.Ok? {
      CountTypeAppend(c.events, CompleteEvents(pending), "transition");
      CompleteTransitions(pending);
    }
  }

  // ---------------------------------------------------------------------
  // ensure_target_directory, in both handlers

  /** When the target directory cannot be had, both handlers stop right
      after their `start` event in the same way: an aborted request with
      nothing more sent, or one `error` event and a 500; the files are
      untouched and the sender stays in its slot. */
  lemma {:induction false} TargetFailure(url: string, st: FsState, pending: bool, d: DownloadInputs, u: UploadInputs)
    requires u.target == d.target && EnsureTargetSpec(st, d.target).result.Err?
    ensures var hd := DownloadAndExtractSpec(url, st, pending, d);
      var hu := UploadAndExtractSpec(st, pending, u);
      && hd.events[0] == StartDownload(url) && hu.events[0] == StartUpload
      && hd.events[1..] == hu.events[1..]
      && hd.response == hu.response && hd.fs == hu.fs
      && hd.pending == pending && hu.pending == pending
      && hd.fs.files == st.files
      && (hd.response.Aborted? ==> |hd.events| == 1)
      && (hd.response.Respond? ==> hd.response.status == 500 && |hd.events| == 2 && hd.events[1].eventType == "error")
  {
    var t := EnsureTargetSpec(st, d.target);
    assert ([StartDownload(url)] + t.events)[1..] == t.events;
    assert ([StartUpload] + t.events)[1..] == t.events;
  }

  /** After a successful `ensure_target_directory` the directory exists,
      and nothing was sent. */
  lemma {:induction false} TargetReady(st: FsState, t: TargetInputs)
    requires EnsureTargetSpec(st, t).result.Ok?
    ensures var s := EnsureTargetSpec(st, t);
      ExistsIn(s.fs, s.result.value) && s.events == [] && s.fs.files == st.files && st.dirs <= s.fs.dirs
  {
  }

  // ---------------------------------------------------------------------
  // download_and_extract

  /** No event before the download's own is an error, an extraction or a
      completion. */
  lemma {:induction false} QuietDownloadPrefix(url: string, dl: seq<ProgressEvent>, eventType: string)
    requires forall i :: 0 <= i < |dl| ==> dl[i].eventType == "downloading"
    requires eventType != "downloading" && eventType != "start"
    ensures CountType([StartDownload(url), DownloadingArchive] + dl, eventType) == 0
  {
    var e := [StartDownload(url), DownloadingArchive] + dl;
    forall i | 0 <= i < |e| ensures e[i].eventType != eventType {
      if i >= 2 {
        assert e[i] == dl[i - 2];
      }
    }
    CountTypeAbsent(e, eventType);
  }

  /** The events of a download handler whose target directory is ready. */
  lemma {:induction false} DownloadEvents(url: string, st: FsState, pending: bool, d: DownloadInputs)
    requires EnsureTargetSpec(st, d.target).result.Ok?
    ensures var h := DownloadAndExtractSpec(url, st, pending, d);
      var a := AcquireSpec(EnsureTargetSpec(st, d.target).result.value, EnsureTargetSpec(st, d.target).fs, d.request);
      && a.events == [DownloadingArchive] + DownloadSpec(d.request).events + (if a.result.Err? then [a.events[|a.events| - 1]] else [])
      && h.events == [StartDownload(url)] + a.events + (if a.result.Ok? then VerifyDownloadSpec(url, EnsureTargetSpec(st, d.target).result.value, a.fs, pending, d).events else [])
  {
  }

  /** A failed transfer shows as exactly one `error` event, nothing is
      extracted or completed, the response is a 500 carrying the
      downloader's message, and the sender stays in its slot. */
  lemma {:induction false} DownloadFailure(url: string, st: FsState, pending: bool, d: DownloadInputs)
    requires EnsureTargetSpec(st, d.target).result.Ok?
    requires DownloadSpec(d.request).result.Err?
    ensures var h := DownloadAndExtractSpec(url, st, pending, d);
      && h.response == InternalError("Failed to download file: " + DownloadSpec(d.request).result.error)
      && h.pending == pending
      && CountType(h.events, "error") == 1
      && CountType(h.events, "extracting") == 0
      && CountType(h.events, "complete") == 0
  {
    DownloadFailureShape(url, st, pending, d);
    DownloadEventTypes(d.request);
    FailureCounts(url, DownloadSpec(d.request).events, ErrorEvent("Failed to download file: " + DownloadSpec(d.request).result.error));
  }

  /** The log of a failed transfer: the handler's two events, the
      downloader's, then one error. */
  lemma {:induction false} DownloadFailureShape(url: string, st: FsState, pending: bool, d: DownloadInputs)
    requires EnsureTargetSpec(st, d.target).result.Ok?
    requires DownloadSpec(d.request).result.Err?
    ensures var h := DownloadAndExtractSpec(url, st, pending, d);
      && h.response == InternalError("Failed to download file: " + DownloadSpec(d.request).result.error)
      && h.pending == pending
      && h.events == [StartDownload(url), DownloadingArchive] + DownloadSpec(d.request).events
                     + [ErrorEvent("Failed to download file: " + DownloadSpec(d.request).result.error)]
  {
    DownloadEvents(url, st, pending, d);
  }

  /** Counting over a download's events followed by one error event. */
  lemma {:induction false} FailureCounts(url: string, dl: seq<ProgressEvent>, err: ProgressEvent)
    requires forall i :: 0 <= i < |dl| ==> dl[i].eventType == "downloading"
    requires err.eventType == "error"
    ensures CountType([StartDownload(url), DownloadingArchive] + dl + [err], "error") == 1
    ensures CountType([StartDownload(url), DownloadingArchive] + dl + [err], "extracting") == 0
    ensures CountType([StartDownload(url), DownloadingArchive] + dl + [err], "complete") == 0
  {
    var pre := [StartDownload(url), DownloadingArchive] + dl;
    QuietDownloadPrefix(url, dl, "error");
    QuietDownloadPrefix(url, dl, "extracting");
    QuietDownloadPrefix(url, dl, "complete");
    CountTypeAppend(pre, [err], "error");
    CountTypeAppend(pre, [err], "extracting");
    CountTypeAppend(pre, [err], "complete");
    CountTypeSingle(err, "error");
    CountTypeSingle(err, "extracting");
    CountTypeSingle(err, "complete");
  }

  /** When the size check after the transfer fails (an empty file, or no
      metadata), the handler ends with that error and a 500, extracts
      nothing, and leaves the downloaded archive in place. */
  lemma {:induction false} DownloadCheckFailure(url: string, st: FsState, pending: bool, d: DownloadInputs)
    requires EnsureTargetSpec(st, d.target).result.Ok?
    requires DownloadSpec(d.request).result.Ok?
    requires CheckDownloaded(d.metadata).Some?
    ensures var h := DownloadAndExtractSpec(url, st, pending, d);
      var dir := EnsureTargetSpec(st, d.target).result.value;
      && h.response == InternalError(CheckDownloaded(d.metadata).value)
      && (d.metadata == Ok(0) ==> h.response == InternalError(DownloadedEmpty))
      && h.events[|h.events| - 1] == ErrorEvent(CheckDownloaded(d.metadata).value)
      && CountType(h.events, "error") == 1
      && CountType(h.events, "extracting") == 0
      && h.pending == pending
      && ArchivePath(dir) in h.fs.files && h.fs.files[ArchivePath(dir)] == DownloadSpec(d.request).file.value
  {
    var h := DownloadAndExtractSpec(url, st, pending, d);
    var dl := DownloadSpec(d.request).events;
    var err := ErrorEvent(CheckDownloaded(d.metadata).value);
    DownloadEvents(url, st, pending, d);
    assert h.events == [StartDownload(url), DownloadingArchive] + dl + [err];
    DownloadEventTypes(d.request);
    QuietDownloadPrefix(url, dl, "error");
    QuietDownloadPrefix(url, dl, "extracting");
    CountTypeAppend([StartDownload(url), DownloadingArchive] + dl, [err], "error");
    CountTypeAppend([StartDownload(url), DownloadingArchive] + dl, [err], "extracting");
    CountTypeSingle(err, "error");
    CountTypeSingle(err, "extracting");
  }

  /** The stage after the transfer succeeds only through the size check
      and the shared tail. */
  lemma {:induction false} VerifyDownloadSuccess(url: string, dir: string, st: FsState, pending: bool, d: DownloadInputs)
    requires Succeeded(VerifyDownloadSpec(url, dir, st, pending, d).response)
    ensures var v := VerifyDownloadSpec(url, dir, st, pending, d);
      var c := CleanupSpec(ArchivePath(dir), dir, st, d.extract, d.removeFault);
      && d.metadata.Ok? && d.metadata.value > 0 && c.result.Ok?
      && v.events == [DownloadComplete(d.metadata.value)] + (c.events + CompleteEvents(pending))
      && v.response == Respond(200, Message(DownloadedMessage(url))) && !v.pending && v.fs == c.fs
  {
    FinishShutdown(ArchivePath(dir), dir, st, pending, d.extract, d.removeFault, DownloadedMessage(url));
  }

  lemma {:induction false} FetchSuccess(url: string, dir: string, st: FsState, pending: bool, d: DownloadInputs)
    requires Succeeded(FetchSpec(url, dir, st, pending, d).response)
    ensures var a := AcquireSpec(dir, st, d.request);
      && a.result.Ok? && DownloadSpec(d.request).result.Ok?
      && a.events == [DownloadingArchive] + DownloadSpec(d.request).events
      && FetchSpec(url, dir, st, pending, d) == Prepend(a.events, VerifyDownloadSpec(url, dir, a.fs, pending, d))
      && Succeeded(VerifyDownloadSpec(url, dir, a.fs, pending, d).response)
  {
  }

  /** What a successful transfer leaves in the archive: every chunk
      received, in order. */
  lemma {:induction false} AcquiredArchive(dir: string, st: FsState, request: Request)
    requires AcquireSpec(dir, st, request).result.Ok?
    ensures request.send.Ok?
    ensures var a := AcquireSpec(dir, st, request);
      ArchivePath(dir) in a.fs.files && a.fs.files[ArchivePath(dir)] == Concat(ChunkData(request.send.value.body))
  {
    var resp := request.send.value;
    CompletedTransfer(resp.body, resp.contentLength.GetOr(0));
  }

  /** `ensure_target_directory` never fails with a success. */
  lemma {:induction false} TargetErrorIsFailure(st: FsState, t: TargetInputs)
    ensures var s := EnsureTargetSpec(st, t);
      (s.result.Err? ==> !Succeeded(s.result.error)) && (s.result.Ok? ==> s.events == [])
  {
  }

  lemma {:induction false} DownloadSuccessStages(url: string, st: FsState, pending: bool, d: DownloadInputs)
    requires Succeeded(DownloadAndExtractSpec(url, st, pending, d).response)
    ensures var t := EnsureTargetSpec(st, d.target);
      && t.result.Ok? && t.events == []
      && DownloadAndExtractSpec(url, st, pending, d) == Prepend([StartDownload(url)], FetchSpec(url, t.result.value, t.fs, pending, d))
      && Succeeded(FetchSpec(url, t.result.value, t.fs, pending, d).response)
  {
    TargetErrorIsFailure(st, d.target);
    var t := EnsureTargetSpec(st, d.target);
    assert [StartDownload(url)] + t.events == [StartDownload(url)];
  }

  lemma {:induction false} Regroup(s: ProgressEvent, da: ProgressEvent, dl: seq<ProgressEvent>, dc: ProgressEvent, c: seq<ProgressEvent>, ce: seq<ProgressEvent>)
    ensures [s] + (([da] + dl) + ([dc] + (c + ce))) == [s, da] + dl + [dc] + c + ce
  {
  }

  /** A download handler that answers 200 got through every stage: the
      target directory, the transfer, the size check, extraction. Its
      events are the stages' in order and it took the sender. */
  lemma {:induction false} DownloadSuccess(url: string, st: FsState, pending: bool, d: DownloadInputs)
    requires Succeeded(DownloadAndExtractSpec(url, st, pending, d).response)
    ensures var h := DownloadAndExtractSpec(url, st, pending, d);
      var t := EnsureTargetSpec(st, d.target);
      && t.result.Ok? && DownloadSpec(d.request).result.Ok?
      && d.metadata.Ok? && d.metadata.value > 0
      && h.response == Respond(200, Message(DownloadedMessage(url)))
      && !h.pending
      && (var dir := t.result.value;
          var a := AcquireSpec(dir, t.fs, d.request);
          var c := CleanupSpec(ArchivePath(dir), dir, a.fs, d.extract, d.removeFault);
          && c.result.Ok? && h.fs == c.fs
          && h.events == [StartDownload(url), DownloadingArchive] + DownloadSpec(d.request).events
                         + [DownloadComplete(d.metadata.value)] + c.events + CompleteEvents(pending))
  {
    var t := EnsureTargetSpec(st, d.target);
    DownloadSuccessStages(url, st, pending, d);
    var dir := t.result.value;
    FetchSuccess(url, dir, t.fs, pending, d);
    var a := AcquireSpec(dir, t.fs, d.request);
    VerifyDownloadSuccess(url, dir, a.fs, pending, d);
    var c := CleanupSpec(ArchivePath(dir), dir, a.fs, d.extract, d.removeFault);
    Regroup(StartDownload(url), DownloadingArchive, DownloadSpec(d.request).events, DownloadComplete(d.metadata.value), c.events, CompleteEvents(pending));
  }

  /** After a successful download the archive is left behind only when its
      removal failed, and then it holds exactly the bytes received. */
  lemma {:induction false} DownloadSuccessArchive(url: string, st: FsState, pending: bool, d: DownloadInputs)
    requires Succeeded(DownloadAndExtractSpec(url, st, pending, d).response)
    ensures d.request.send.Ok?
    ensures var h := DownloadAndExtractSpec(url, st, pending, d);
      var dir := EnsureTargetSpec(st, d.target).result.value;
      && (ArchivePath(dir) in h.fs.files <==> d.removeFault.Some?)
      && (d.removeFault.Some? ==> h.fs.files[ArchivePath(dir)] == Concat(ChunkData(d.request.send.value.body)))
  {
    DownloadSuccess(url, st, pending, d);
    var t := EnsureTargetSpec(st, d.target);
    AcquiredArchive(t.result.value, t.fs, d.request);
  }

  lemma {:induction false} CleanupSuccessProgress(archive: string, target: string, st: FsState, o: ExtractOracle, removeFault: Option<IoError>)
    requires CleanupSpec(archive, target, st, o, removeFault).result.Ok?
    ensures Progresses(CleanupSpec(archive, target, st, o, removeFault).events) == [60.0, 65.0, 85.0, 90.0]
  {
    var x := ExtractSpec(archive, ExistsIn(st, archive), ExistsIn(st, target), o);
    ExtractOkIff(archive, ExistsIn(st, archive), ExistsIn(st, target), o);
    assert x.events == [x.events[0], x.events[1]];
    assert CleanupSpec(archive, target, st, o, removeFault).events == [ExtractingArchive, x.events[0], x.events[1], CleaningUp];
    ProgressesOfFour(ExtractingArchive, x.events[0], x.events[1], CleaningUp);
  }

  /** The progress values of four events that all carry one. */
  lemma {:induction false} ProgressesOfFour(a: ProgressEvent, b: ProgressEvent, c: ProgressEvent, d: ProgressEvent)
    requires a.progress.Some? && b.progress.Some? && c.progress.Some? && d.progress.Some?
    ensures Progresses([a, b, c, d]) == [a.progress.value, b.progress.value, c.progress.value, d.progress.value]
  {
    assert [a, b, c, d] == [a, b, c] + [d];
    assert [a, b, c] == [a, b] + [c];
    assert [a, b] == [a] + [b];
    ProgressesAppend([a, b, c], [d]);
    ProgressesAppend([a, b], [c]);
    ProgressesAppend([a], [b]);
    ProgressesSingle(a);
    ProgressesSingle(b);
    ProgressesSingle(c);
    ProgressesSingle(d);
  }

  lemma {:induction false} CompleteProgress(pending: bool)
    ensures Progresses(CompleteEvents(pending)) == [100.0] + if pending then [100.0] else []
  {
    ProgressesSingle(Complete);
    if pending {
      ProgressesAppend([Complete], [Transition]);
      ProgressesSingle(Transition);
    } else {
      assert CompleteEvents(pending) == [Complete];
    }
  }

  lemma {:induction false} SuccessLogProgress(s: ProgressEvent, da: ProgressEvent, dl: seq<ProgressEvent>, dc: ProgressEvent, c: seq<ProgressEvent>, pending: bool)
    requires s.progress == Some(0.0) && da.progress == Some(10.0) && dc.progress == Some(50.0)
    requires Progresses(c) == [60.0, 65.0, 85.0, 90.0]
    ensures Progresses([s, da] + dl + [dc] + c + CompleteEvents(pending))
      == [0.0, 10.0] + Progresses(dl) + [50.0, 60.0, 65.0, 85.0, 90.0, 100.0] + (if pending then [100.0] else [])
  {
    var q := Progresses(dl);
    var x: seq<real> := if pending then [100.0] else [];
    var p1 := [s, da];
    var p2 := p1 + dl;
    var p3 := p2 + [dc];
    var p4 := p3 + c;
    assert Progresses(p1) == [0.0, 10.0] by {
      assert p1 == [s] + [da];
      ProgressesAppend([s], [da]);
      ProgressesSingle(s);
      ProgressesSingle(da);
    }
    assert Progresses(p3) == [0.0, 10.0] + q + [50.0] by {
      ProgressesAppend(p1, dl);
      ProgressesAppend(p2, [dc]);
      ProgressesSingle(dc);
    }
    assert Progresses(p4 + CompleteEvents(pending)) == [0.0, 10.0] + q + [50.0] + [60.0, 65.0, 85.0, 90.0] + ([100.0] + x) by {
      ProgressesAppend(p3, c);
      ProgressesAppend(p4, CompleteEvents(pending));
      CompleteProgress(pending);
    }
    assert [0.0, 10.0] + q + [50.0] + [60.0, 65.0, 85.0, 90.0] + ([100.0] + x)
        == [0.0, 10.0] + q + [50.0, 60.0, 65.0, 85.0, 90.0, 100.0] + x;
  }

  /** The progress values of a successful download, in order: 0 and 10
      from the handler, the downloader's own, then 50, 60, 65, 85, 90 and
      100, and a second 100 for the transition. */
  lemma {:induction false} DownloadSuccessProgress(url: string, st: FsState, pending: bool, d: DownloadInputs)
    requires Succeeded(DownloadAndExtractSpec(url, st, pending, d).response)
    ensures Progresses(DownloadAndExtractSpec(url, st, pending, d).events)
      == [0.0, 10.0] + Progresses(DownloadSpec(d.request).events)
         + [50.0, 60.0, 65.0, 85.0, 90.0, 100.0] + (if pending then [100.0] else [])
  {
    DownloadSuccess(url, st, pending, d);
    var t := EnsureTargetSpec(st, d.target);
    var dir := t.result.value;
    var a := AcquireSpec(dir, t.fs, d.request);
    CleanupSuccessProgress(ArchivePath(dir), dir, a.fs, d.extract, d.removeFault);
    var c := CleanupSpec(ArchivePath(dir), dir, a.fs, d.extract, d.removeFault);
    SuccessLogProgress(StartDownload(url), DownloadingArchive, DownloadSpec(d.request).events, DownloadComplete(d.metadata.value), c.events, pending);
  }

  /** The downloader's values lie between 15 and 50 when the server's
      length, if it gave one, was not exceeded. */
  lemma {:induction false} DownloadProgressBounded(r: Request)
    requires r.send.Ok?
    requires var cl := r.send.value.contentLength.GetOr(0);
      cl == 0 || TotalLength(ChunkData(r.send.value.body)) <= cl
    ensures var q := Progresses(DownloadSpec(r).events);
      NonDecreasing(q) && forall i :: 0 <= i < |q| ==> 15.0 <= q[i] <= 50.0
  {
    DownloadProgress(r);
    DownloadQuietStart(r);
  }

  lemma {:induction false} SuccessProgressMonotone(q: seq<real>, pending: bool)
    requires NonDecreasing(q) && forall i :: 0 <= i < |q| ==> 15.0 <= q[i] <= 50.0
    ensures NonDecreasing([0.0, 10.0] + q + [50.0, 60.0, 65.0, 85.0, 90.0, 100.0] + (if pending then [100.0] else []))
  {
    var tail := [50.0, 60.0, 65.0, 85.0, 90.0, 100.0] + (if pending then [100.0] else []);
    assert NonDecreasing(tail);
    NonDecreasingAppend([0.0, 10.0], q);
    NonDecreasingAppend([0.0, 10.0] + q, tail);
  }

  /** A successful download reports progress that never goes down, as
      long as the server's length, when it gave one, was not exceeded. */
  lemma {:induction false} DownloadSuccessMonotone(url: string, st: FsState, pending: bool, d: DownloadInputs)
    requires Succeeded(DownloadAndExtractSpec(url, st, pending, d).response)
    requires d.request.send.Ok?
    requires var cl := d.request.send.value.contentLength.GetOr(0);
      cl == 0 || TotalLength(ChunkData(d.request.send.value.body)) <= cl
    ensures NonDecreasing(Progresses(DownloadAndExtractSpec(url, st, pending, d).events))
  {
    DownloadSuccessProgress(url, st, pending, d);
    DownloadProgressBounded(d.request);
    SuccessProgressMonotone(Progresses(DownloadSpec(d.request).events), pending);
  }

  /** The downloader's first value is 15. */
  lemma {:induction false} DownloadQuietStart(r: Request)
    requires r.send.Ok?
    ensures var q := Progresses(DownloadSpec(r).events);
      |q| > 0 ==> q[0] == 15.0
  {
    var e := DownloadSpec(r).events;
    if e != [] {
      ProgressesAppend([e[0]], e[1..]);
      ProgressesSingle(e[0]);
      assert e == [e[0]] + e[1..];
    }
  }

  // ---------------------------------------------------------------------
  // upload_and_extract

  /** The upload handler once its target directory and empty archive
      exist. */
  lemma {:induction false} UploadReceived(st: FsState, pending: bool, u: UploadInputs)
    requires EnsureTargetSpec(st, u.target).result.Ok? && u.createFault.None?
    ensures var t := EnsureTargetSpec(st, u.target);
      var dir := t.result.value;
      UploadAndExtractSpec(st, pending, u)
        == Prepend([StartUpload], ReceivedSpec(dir, FsState(t.fs.dirs, t.fs.files[ArchivePath(dir) := []]), pending, u))
  {
    TargetErrorIsFailure(st, u.target);
  }

  /** The multipart loops send neither `transition`, `extracting` nor
      `complete` events. */
  lemma {:induction false} UploadLoopsQuiet(fields: seq<Field>, eventType: string)
    requires eventType != "uploading" && eventType != "error"
    ensures CountType(FieldsFold(fields).events, eventType) == 0
  {
    var e := FieldsFold(fields).events;
    UploadEvents(fields);
    forall i | 0 <= i < |e| ensures e[i].eventType != eventType {
      assert UploadEvent(e[i]);
      if e[i] != UploadingFile && e[i].eventType != "error" {
        var fb: nat :| fb % TickBytes == 0 && e[i] == UploadTick(fb);
      }
    }
    CountTypeAbsent(e, eventType);
  }

  /** When the multipart loops stop on an error, the upload answers 500
      with it, having sent exactly one `error` event and no extraction;
      the archive keeps what was written before the error. */
  lemma {:induction false} UploadLoopFailure(st: FsState, pending: bool, u: UploadInputs)
    requires EnsureTargetSpec(st, u.target).result.Ok? && u.createFault.None?
    requires FieldsFold(u.fields).failure.Some?
    ensures var h := UploadAndExtractSpec(st, pending, u);
      var dir := EnsureTargetSpec(st, u.target).result.value;
      && h.response == InternalError(FieldsFold(u.fields).failure.value)
      && h.pending == pending
      && CountType(h.events, "error") == 1
      && CountType(h.events, "extracting") == 0
      && h.fs.files[ArchivePath(dir)] == FieldsFold(u.fields).written
  {
    UploadReceived(st, pending, u);
    var r := FieldsFold(u.fields);
    UploadEvents(u.fields);
    UploadLoopsQuiet(u.fields, "extracting");
    CountTypeAppend([StartUpload], r.events, "error");
    CountTypeAppend([StartUpload], r.events, "extracting");
    CountTypeSingle(StartUpload, "error");
    CountTypeSingle(StartUpload, "extracting");
  }

  /** The first size check after the loops: an upload with no bytes sends
      an `error` event and answers 400, extracting nothing; the empty
      archive stays. */
  lemma {:induction false} EmptyUpload(st: FsState, pending: bool, u: UploadInputs)
    requires EnsureTargetSpec(st, u.target).result.Ok? && u.createFault.None?
    requires FieldsFold(u.fields).failure.None? && |FieldsData(u.fields)| == 0
    ensures var h := UploadAndExtractSpec(st, pending, u);
      var dir := EnsureTargetSpec(st, u.target).result.value;
      && h.response == Respond(400, ErrorBody(UploadedEmpty))
      && h.events == [StartUpload] + FieldsFold(u.fields).events + [ErrorEvent(UploadedEmpty)]
      && h.pending == pending
      && ArchivePath(dir) in h.fs.files && h.fs.files[ArchivePath(dir)] == []
  {
    UploadReceived(st, pending, u);
    UploadWritesEverything(u.fields);
  }

  /** The second size check: bytes were received, but the file then reads
      as empty or cannot be inspected. The upload is reported complete,
      then the error follows with a 500; nothing is extracted and the
      archive is left holding the bytes received. */
  lemma {:induction false} UploadCheckFailure(st: FsState, pending: bool, u: UploadInputs)
    requires EnsureTargetSpec(st, u.target).result.Ok? && u.createFault.None?
    requires FieldsFold(u.fields).failure.None? && |FieldsData(u.fields)| > 0
    requires CheckUploaded(u.metadata).Some?
    ensures var h := UploadAndExtractSpec(st, pending, u);
      var dir := EnsureTargetSpec(st, u.target).result.value;
      var msg := CheckUploaded(u.metadata).value;
      && h.response == InternalError(msg)
      && (u.metadata == Ok(0) ==> msg == UploadedEmpty)
      && h.events == [StartUpload] + FieldsFold(u.fields).events + [UploadComplete(|FieldsData(u.fields)|), ErrorEvent(msg)]
      && h.pending == pending
      && ArchivePath(dir) in h.fs.files && h.fs.files[ArchivePath(dir)] == FieldsData(u.fields)
  {
    UploadReceived(st, pending, u);
    UploadWritesEverything(u.fields);
  }

  lemma {:induction false} VerifyUploadSuccess(dir: string, st: FsState, pending: bool, u: UploadInputs, total: nat)
    requires Succeeded(VerifyUploadSpec(dir, st, pending, u, total).response)
    ensures var v := VerifyUploadSpec(dir, st, pending, u, total);
      var c := CleanupSpec(ArchivePath(dir), dir, st, u.extract, u.removeFault);
      && total > 0 && u.metadata.Ok? && u.metadata.value > 0 && c.result.Ok?
      && v.events == [UploadComplete(total)] + (c.events + CompleteEvents(pending))
      && v.response == Respond(200, Message(UploadedMessage)) && !v.pending && v.fs == c.fs
  {
    FinishShutdown(ArchivePath(dir), dir, st, pending, u.extract, u.removeFault, UploadedMessage);
  }

  lemma {:induction false} ReceivedSuccess(dir: string, st: FsState, pending: bool, u: UploadInputs)
    requires Succeeded(ReceivedSpec(dir, st, pending, u).response)
    ensures var r := FieldsFold(u.fields);
      var st2 := FsState(st.dirs, st.files[ArchivePath(dir) := r.written]);
      && r.failure.None?
      && ReceivedSpec(dir, st, pending, u) == Prepend(r.events, VerifyUploadSpec(dir, st2, pending, u, r.total))
      && Succeeded(VerifyUploadSpec(dir, st2, pending, u, r.total).response)
  {
  }

  /** An upload that answers 200 got through every stage: the target
      directory, the empty archive, the loops, both size checks,
      extraction; and it took the sender. */
  lemma {:induction false} UploadSuccess(st: FsState, pending: bool, u: UploadInputs)
    requires Succeeded(UploadAndExtractSpec(st, pending, u).response)
    ensures var h := UploadAndExtractSpec(st, pending, u);
      var r := FieldsFold(u.fields);
      && EnsureTargetSpec(st, u.target).result.Ok? && u.createFault.None? && r.failure.None?
      && r.total > 0 && u.metadata.Ok? && u.metadata.value > 0
      && h.response == Respond(200, Message(UploadedMessage))
      && !h.pending
  {
    var t := EnsureTargetSpec(st, u.target);
    UploadSuccessStages(st, pending, u);
    var dir := t.result.value;
    var st1 := FsState(t.fs.dirs, t.fs.files[ArchivePath(dir) := []]);
    ReceivedSuccess(dir, st1, pending, u);
    var r := FieldsFold(u.fields);
    VerifyUploadSuccess(dir, FsState(st1.dirs, st1.files[ArchivePath(dir) := r.written]), pending, u, r.total);
  }

  /** The events of a successful upload are the stages' in order, and
      the file system is the one extraction and cleanup left. */
  lemma {:induction false} UploadSuccessEvents(st: FsState, pending: bool, u: UploadInputs)
    requires Succeeded(UploadAndExtractSpec(st, pending, u).response)
    ensures EnsureTargetSpec(st, u.target).result.Ok?
    ensures var h := UploadAndExtractSpec(st, pending, u);
      var t := EnsureTargetSpec(st, u.target);
      var r := FieldsFold(u.fields);
      var dir := t.result.value;
      var c := CleanupSpec(ArchivePath(dir), dir, FsState(t.fs.dirs, t.fs.files[ArchivePath(dir) := r.written]), u.extract, u.removeFault);
      && c.result.Ok? && h.fs == c.fs
      && h.events == [StartUpload] + r.events + [UploadComplete(r.total)] + c.events + CompleteEvents(pending)
  {
    var t := EnsureTargetSpec(st, u.target);
    UploadSuccessChain(st, pending, u);
    var dir := t.result.value;
    var r := FieldsFold(u.fields);
    var st2 := FsState(t.fs.dirs, t.fs.files[ArchivePath(dir) := r.written]);
    VerifyUploadSuccess(dir, st2, pending, u, r.total);
    var c := CleanupSpec(ArchivePath(dir), dir, st2, u.extract, u.removeFault);
    UploadRegroup(StartUpload, r.events, UploadComplete(r.total), c.events, CompleteEvents(pending));
  }

  /** A successful upload is the start event, the loops' events, then the
      size checks and what follows them, on the received archive. */
  lemma {:induction false} UploadSuccessChain(st: FsState, pending: bool, u: UploadInputs)
    requires Succeeded(UploadAndExtractSpec(st, pending, u).response)
    ensures EnsureTargetSpec(st, u.target).result.Ok?
    ensures var t := EnsureTargetSpec(st, u.target);
      var r := FieldsFold(u.fields);
      var dir := t.result.value;
      var v := VerifyUploadSpec(dir, FsState(t.fs.dirs, t.fs.files[ArchivePath(dir) := r.written]), pending, u, r.total);
      && UploadAndExtractSpec(st, pending, u) == Prepend([StartUpload], Prepend(r.events, v))
      && Succeeded(v.response)
  {
    var t := EnsureTargetSpec(st, u.target);
    UploadSuccessStages(st, pending, u);
    var dir := t.result.value;
    var st1 := FsState(t.fs.dirs, t.fs.files[ArchivePath(dir) := []]);
    ReceivedSuccess(dir, st1, pending, u);
    var r := FieldsFold(u.fields);
    assert st1.files[ArchivePath(dir) := r.written] == t.fs.files[ArchivePath(dir) := r.written];
  }

  lemma {:induction false} UploadSuccessStages(st: FsState, pending: bool, u: UploadInputs)
    requires Succeeded(UploadAndExtractSpec(st, pending, u).response)
    ensures var t := EnsureTargetSpec(st, u.target);
      && t.result.Ok? && u.createFault.None?
      && var dir := t.result.value;
         var st1 := FsState(t.fs.dirs, t.fs.files[ArchivePath(dir) := []]);
         && UploadAndExtractSpec(st, pending, u) == Prepend([StartUpload], ReceivedSpec(dir, st1, pending, u))
         && Succeeded(ReceivedSpec(dir, st1, pending, u).response)
  {
    TargetErrorIsFailure(st, u.target);
    var t := EnsureTargetSpec(st, u.target);
    assert [StartUpload] + t.events == [StartUpload];
  }

  lemma {:induction false} UploadRegroup(s: ProgressEvent, r: seq<ProgressEvent>, uc: ProgressEvent, c: seq<ProgressEvent>, ce: seq<ProgressEvent>)
    ensures [s] + (r + ([uc] + (c + ce))) == [s] + r + [uc] + c + ce
  {
  }

  /** After a successful upload the archive is left behind only when its
      removal failed, and then it holds every byte uploaded, in order. */
  lemma {:induction false} UploadSuccessArchive(st: FsState, pending: bool, u: UploadInputs)
    requires Succeeded(UploadAndExtractSpec(st, pending, u).response)
    ensures var h := UploadAndExtractSpec(st, pending, u);
      var dir := EnsureTargetSpec(st, u.target).result.value;
      && |FieldsData(u.fields)| > 0
      && (ArchivePath(dir) in h.fs.files <==> u.removeFault.Some?)
      && (u.removeFault.Some? ==> h.fs.files[ArchivePath(dir)] == FieldsData(u.fields))
  {
    UploadSuccess(st, pending, u);
    UploadSuccessEvents(st, pending, u);
    UploadWritesEverything(u.fields);
  }

  // ---------------------------------------------------------------------
  // The shutdown sender

  /** A handler takes the sender exactly when it succeeds while the slot
      still holds it, and sends `transition` exactly then. */
  ghost predicate TakesSenderOnSuccess(h: Handled, pending: bool)
  {
    && h.pending == (pending && !Succeeded(h.response))
    && CountType(h.events, "transition") == if pending && Succeeded(h.response) then 1 else 0
  }

  lemma {:induction false} PrependTakes(events: seq<ProgressEvent>, h: Handled, pending: bool)
    requires CountType(events, "transition") == 0 && TakesSenderOnSuccess(h, pending)
    ensures TakesSenderOnSuccess(Prepend(events, h), pending)
  {
    CountTypeAppend(events, h.events, "transition");
  }

  lemma {:induction false} TargetQuiet(st: FsState, t: TargetInputs)
    ensures CountType(EnsureTargetSpec(st, t).events, "transition") == 0
  {
    var e := EnsureTargetSpec(st, t).events;
    if e != [] {
      assert e == [e[0]];
      CountTypeSingle(e[0], "transition");
    }
  }

  lemma {:induction false} AcquireQuiet(dir: string, st: FsState, request: Request)
    ensures CountType(AcquireSpec(dir, st, request).events, "transition") == 0
  {
    var e := AcquireSpec(dir, st, request).events;
    DownloadEventTypes(request);
    var dl := DownloadSpec(request).events;
    forall i | 0 <= i < |e| ensures e[i].eventType != "transition" {
      if 0 < i <= |dl| {
        assert e[i] == dl[i - 1];
      }
    }
    CountTypeAbsent(e, "transition");
  }

  lemma {:induction false} VerifyDownloadShutdown(url: string, dir: string, st: FsState, pending: bool, d: DownloadInputs)
    ensures TakesSenderOnSuccess(VerifyDownloadSpec(url, dir, st, pending, d), pending)
  {
    if CheckDownloaded(d.metadata).Some? {
      CountTypeSingle(ErrorEvent(CheckDownloaded(d.metadata).value), "transition");
    } else {
      FinishShutdown(ArchivePath(dir), dir, st, pending, d.extract, d.removeFault, DownloadedMessage(url));
      CountTypeSingle(DownloadComplete(d.metadata.value), "transition");
      PrependTakes([DownloadComplete(d.metadata.value)],
                   FinishSpec(ArchivePath(dir), dir, st, pending, d.extract, d.removeFault, DownloadedMessage(url)), pending);
    }
  }

  /** `download_and_extract` takes the sender, and sends `transition`,
      exactly when it succeeds while the slot holds the sender. */
  lemma {:induction false} DownloadShutdown(url: string, st: FsState, pending: bool, d: DownloadInputs)
    ensures TakesSenderOnSuccess(DownloadAndExtractSpec(url, st, pending, d), pending)
  {
    var t := EnsureTargetSpec(st, d.target);
    TargetQuiet(st, d.target);
    TargetErrorIsFailure(st, d.target);
    CountTypeSingle(StartDownload(url), "transition");
    CountTypeAppend([StartDownload(url)], t.events, "transition");
    if t.result.Ok? {
      var dir := t.result.value;
      var a := AcquireSpec(dir, t.fs, d.request);
      AcquireQuiet(dir, t.fs, d.request);
      if a.result.Ok? {
        VerifyDownloadShutdown(url, dir, a.fs, pending, d);
        PrependTakes(a.events, VerifyDownloadSpec(url, dir, a.fs, pending, d), pending);
      }
      PrependTakes([StartDownload(url)] + t.events, FetchSpec(url, dir, t.fs, pending, d), pending);
    }
  }

  lemma {:induction false} VerifyUploadShutdown(dir: string, st: FsState, pending: bool, u: UploadInputs, total: nat)
    ensures TakesSenderOnSuccess(VerifyUploadSpec(dir, st, pending, u, total), pending)
  {
    CountTypeSingle(UploadComplete(total), "transition");
    if total == 0 {
      CountTypeSingle(ErrorEvent(UploadedEmpty), "transition");
    } else if CheckUploaded(u.metadata).Some? {
      var err := ErrorEvent(CheckUploaded(u.metadata).value);
      CountTypeAppend([UploadComplete(total)], [err], "transition");
      CountTypeSingle(err, "transition");
    } else {
      FinishShutdown(ArchivePath(dir), dir, st, pending, u.extract, u.removeFault, UploadedMessage);
      PrependTakes([UploadComplete(total)],
                   FinishSpec(ArchivePath(dir), dir, st, pending, u.extract, u.removeFault, UploadedMessage), pending);
    }
  }

  /** `upload_and_extract` takes the sender, and sends `transition`,
      exactly when it succeeds while the slot holds the sender. */
  lemma {:induction false} UploadShutdown(st: FsState, pending: bool, u: UploadInputs)
    ensures TakesSenderOnSuccess(UploadAndExtractSpec(st, pending, u), pending)
  {
    var t := EnsureTargetSpec(st, u.target);
    TargetQuiet(st, u.target);
    TargetErrorIsFailure(st, u.target);
    CountTypeSingle(StartUpload, "transition");
    CountTypeAppend([StartUpload], t.events, "transition");
    if t.result.Ok? {
      var dir := t.result.value;
      if u.createFault.Some? {
        var err := ErrorEvent("Failed to create file: " + u.createFault.value.message);
        CountTypeAppend([StartUpload] + t.events, [err], "transition");
        CountTypeSingle(err, "transition");
      } else {
        var st1 := FsState(t.fs.dirs, t.fs.files[ArchivePath(dir) := []]);
        var r := FieldsFold(u.fields);
        UploadLoopsQuiet(u.fields, "transition");
        if r.failure.None? {
          var st2 := FsState(st1.dirs, st1.files[ArchivePath(dir) := r.written]);
          VerifyUploadShutdown(dir, st2, pending, u, r.total);
          PrependTakes(r.events, VerifyUploadSpec(dir, st2, pending, u, r.total), pending);
        }
        PrependTakes([StartUpload] + t.events, ReceivedSpec(dir, st1, pending, u), pending);
      }
    }
  }

  /** One install after another, whichever succeeds: the server is told to
      shut down at most once, and only if the sender was still there. */
  lemma {:induction false} TransitionAtMostOnce(url: string, st: FsState, pending: bool, d: DownloadInputs, u: UploadInputs)
    ensures var h1 := DownloadAndExtractSpec(url, st, pending, d);
      var h2 := UploadAndExtractSpec(h1.fs, h1.pending, u);
      && CountType(h1.events + h2.events, "transition") == (if pending && (Succeeded(h1.response) || Succeeded(h2.response)) then 1 else 0)
      && h2.pending == (pending && !Succeeded(h1.response) && !Succeeded(h2.response))
  {
    var h1 := DownloadAndExtractSpec(url, st, pending, d);
    DownloadShutdown(url, st, pending, d);
    UploadShutdown(h1.fs, h1.pending, u);
    CountTypeAppend(h1.events, UploadAndExtractSpec(h1.fs, h1.pending, u).events, "transition");
  }
}

/** `DownloadService::download_file_from_url`: a streaming GET written to a
    file chunk by chunk, with progress events. The HTTP client is an oracle:
    a `Request` says what sending produced and what the body stream yields. */
module Downloader {
  import opened Base
  import opened Text
  import opened Events
  import opened Fs

  /** One poll of `resp.chunk()`: a chunk (with the outcome of writing it to
      the file) or a read error. The end of the sequence is the end of the body. */
  datatype Item = Chunk(data: seq<byte>, writeFault: Option<IoError>) | ReadFailure(message: string)

  /** A response: its status code, the code's canonical reason phrase as
      `StatusCode::canonical_reason` gives it (`None` for a code without
      one), the announced length and the body. */
  datatype HttpResponse = HttpResponse(status: nat, reason: Option<string>, contentLength: Option<nat>, body: seq<Item>)

  const UnknownStatus: string := "<unknown status code>"

  /** `StatusCode`'s `Display`: the code, a space, then the canonical reason
      or "<unknown status code>". */
  function StatusText(resp: HttpResponse): string
  {
    NatToString(resp.status) + " " + resp.reason.GetOr(UnknownStatus)
  }

  /** `send` is the result of `client.get(url).send()` (the error text on a
      transport failure); `createFault` the outcome of `File::create`. */
  datatype Request = Request(send: Result<HttpResponse, string>, createFault: Option<IoError>)

  const FiveMiB: nat := 5 * 1024 * 1024

  /** `StatusCode::is_success`. */
  predicate IsSuccess(status: nat) { 200 <= status <= 299 }

  /** The integer test `downloaded % (5 MiB) < chunk.len()`. */
  predicate CrossesBoundary(downloaded: nat, len: nat)
  {
    downloaded % FiveMiB < len
  }

  /** The test above says exactly that the chunk just written, which took the
      count from `downloaded - len` to `downloaded`, passed a multiple of 5 MiB. */
  lemma {:induction false} CrossesBoundaryIff(downloaded: nat, len: nat)
    requires len <= downloaded
    ensures CrossesBoundary(downloaded, len)
        <==> exists k: nat :: downloaded - len < k * FiveMiB <= downloaded
  {
    var q := downloaded / FiveMiB;
    var r := downloaded % FiveMiB;
    assert FiveMiB == 5242880;
    assert downloaded == q * 5242880 + r && r < 5242880;
    if CrossesBoundary(downloaded, len) {
      assert downloaded - len < q * FiveMiB <= downloaded;
    }
    if exists k: nat :: downloaded - len < k * FiveMiB <= downloaded {
      var k: nat :| downloaded - len < k * FiveMiB <= downloaded;
      MulCancel(k, q + 1, FiveMiB);
      MulMonotone(k, q, FiveMiB);
    }
  }

  lemma {:induction false} MulCancel(a: nat, b: nat, c: nat)
    requires a * c < b * c
    ensures a < b
  {
    if a >= b {
      MulMonotone(b, a, c);
    }
  }

  lemma {:induction false} MulMonotone(a: nat, b: nat, c: nat)
    requires a <= b
    ensures a * c <= b * c
  {
  }

  /** `(downloaded as f64 / content_length as f64) * 100.0`, in exact arithmetic. */
  function Percent(downloaded: nat, contentLength: nat): real
    requires contentLength > 0
  {
    (downloaded as real / contentLength as real) * 100.0
  }

  /** `15.0 + progress_percent * 0.35`. */
  function NormalizedProgress(downloaded: nat, contentLength: nat): real
    requires contentLength > 0
  {
    15.0 + Percent(downloaded, contentLength) * 0.35
  }

  lemma {:induction false} PercentMonotone(d1: nat, d2: nat, contentLength: nat)
    requires contentLength > 0 && d1 <= d2
    ensures 0.0 <= Percent(d1, contentLength) <= Percent(d2, contentLength)
  {
    var c := contentLength as real;
    assert d1 as real / c <= d2 as real / c;
  }

  lemma {:induction false} PercentOfWhole(contentLength: nat)
    requires contentLength > 0
    ensures Percent(contentLength, contentLength) == 100.0
  {
    var c := contentLength as real;
    assert c / c == 1.0;
  }

  /** The reported value grows with the byte count and stays in [15, 50]
      while no more than the announced length has arrived. */
  lemma {:induction false} NormalizedProgressRange(d1: nat, d2: nat, contentLength: nat)
    requires contentLength > 0 && d1 <= d2
    ensures 15.0 <= NormalizedProgress(d1, contentLength) <= NormalizedProgress(d2, contentLength)
    ensures d2 <= contentLength ==> NormalizedProgress(d2, contentLength) <= 50.0
  {
    PercentMonotone(d1, d2, contentLength);
    if d2 <= contentLength {
      PercentMonotone(d2, contentLength, contentLength);
      PercentOfWhole(contentLength);
    }
  }

  /** The "every 10%" test `progress_percent % 10.0 < chunk share in percent`,
      in exact arithmetic. With p = 100·d/c, p % 10 = 10·((10·d) mod c)/c and the
      chunk share is 100·len/c, so the test is (10·d) mod c < 10·len. */
  predicate TenPercentTick(downloaded: nat, len: nat, contentLength: nat)
    requires contentLength > 0
  {
    (10 * downloaded) % contentLength < 10 * len
  }

  /** The event (if any) sent after a chunk of `len` bytes brought the count
      to `downloaded`; `contentLength` 0 means the length is unknown. */
  function ChunkEvent(downloaded: nat, len: nat, contentLength: nat): Option<ProgressEvent>
  {
    if contentLength > 0 then
      if CrossesBoundary(downloaded, len) || TenPercentTick(downloaded, len, contentLength) then
        Some(New("downloading",
                 "Downloaded: " + Megabytes(downloaded, 1) + " MB (" + FormatFixed(downloaded * 100, contentLength, 0) + "%)",
                 Some(NormalizedProgress(downloaded, contentLength))))
      else None
    else if CrossesBoundary(downloaded, len) then
      Some(New("downloading", "Downloaded: " + Megabytes(downloaded, 1) + " MB", Some(30.0)))
    else None
  }

  function ChunkEvents(downloaded: nat, len: nat, contentLength: nat): seq<ProgressEvent>
  {
    var ev := ChunkEvent(downloaded, len, contentLength);
    if ev.Some? then [ev.value] else []
  }

  /** The state of the chunk loop: bytes counted, bytes in the file, events
      sent, and the error that stopped the loop, if one did. */
  datatype Transfer = Transfer(downloaded: nat, written: seq<byte>, events: seq<ProgressEvent>, failure: Option<string>)

  /** One iteration of the chunk loop. A stopped transfer stays stopped. */
  function Step(t: Transfer, item: Item, contentLength: nat): Transfer
  {
    if t.failure.Some? then t
    else match item
      case ReadFailure(m) => t.(failure := Some("Failed reading download stream: " + m))
      case Chunk(data, fault) =>
        if fault.Some? then t.(failure := Some("Failed to write file: " + fault.value.message))
        else
          var d := t.downloaded + |data|;
          Transfer(d, t.written + data, t.events + ChunkEvents(d, |data|, contentLength), None)
  }

  /** The chunk loop run over `items`. */
  function Fold(items: seq<Item>, contentLength: nat): Transfer
  {
    if items == [] then Transfer(0, [], [], None)
    else Step(Fold(items[..|items| - 1], contentLength), items[|items| - 1], contentLength)
  }

  /** The event sent once the response is known to be a success. */
  function Preflight(contentLength: nat): (e: ProgressEvent)
    ensures e.eventType == "downloading" && e.progress == Some(15.0)
  {
    if contentLength > 0 then New("downloading", "Download size: " + NatToString(contentLength / MiB) + " MB", Some(15.0))
    else New("downloading", "Download size unknown", Some(15.0))
  }

  /** What a download does: the events it sends, its result, and the bytes the
      destination file holds afterwards (`None`: the file was not created). */
  datatype Download = Download(events: seq<ProgressEvent>, result: Result<(), string>, file: Option<seq<byte>>)

  function DownloadSpec(r: Request): (d: Download)
    ensures r.send.Err? ==> d.events == [] && d.file.None? && d.result.Err?
    ensures r.send.Ok? && !IsSuccess(r.send.value.status) ==>
      d == Download([], Err("Download failed with status: " + StatusText(r.send.value)), None)
    ensures r.send.Ok? && IsSuccess(r.send.value.status) ==>
      |d.events| >= 1 && d.events[0] == Preflight(r.send.value.contentLength.GetOr(0))
    ensures d.file.None? ==> d.result.Err?
  {
    match r.send
    case Err(e) => Download([], Err("Failed to send request: " + e), None)
    case Ok(resp) =>
      if !IsSuccess(resp.status) then
        Download([], Err("Download failed with status: " + StatusText(resp)), None)
      else
        var contentLength := resp.contentLength.GetOr(0);
        if r.createFault.Some? then
          Download([Preflight(contentLength)], Err("Failed to create file: " + r.createFault.value.message), None)
        else
          var t := Fold(resp.body, contentLength);
          Download([Preflight(contentLength)] + t.events,
                   if t.failure.Some? then Err(t.failure.value) else Ok(()),
                   Some(t.written))
  }

  /** A 404 is reported with its reason phrase. */
  lemma {:induction false} NotFoundStatusText(body: seq<Item>)
    ensures StatusText(HttpResponse(404, Some("Not Found"), None, body)) == "404 Not Found"
  {
    assert NatToString(4) == "4";
    assert NatToString(40) == "40";
    assert NatToString(404) == "404";
  }

  /** A code without a canonical reason is reported with the placeholder. */
  lemma {:induction false} UnknownStatusText(body: seq<Item>)
    ensures StatusText(HttpResponse(599, None, None, body)) == "599 <unknown status code>"
  {
    assert NatToString(5) == "5";
    assert NatToString(59) == "59";
    assert NatToString(599) == "599";
  }

  lemma {:induction false} FoldStops(items: seq<Item>, k: nat, contentLength: nat)
    requires k <= |items| && Fold(items[..k], contentLength).failure.Some?
    ensures Fold(items, contentLength) == Fold(items[..k], contentLength)
    decreases |items|
  {
    if k < |items| {
      assert items[..|items| - 1][..k] == items[..k];
      FoldStops(items[..|items| - 1], k, contentLength);
    } else {
      assert items[..k] == items;
    }
  }

  method DownloadFileFromUrl(url: string, savePath: string, channel: EventChannel, fs: FileSystem, r: Request)
    returns (res: Result<(), string>)
    modifies channel, fs
    ensures channel.sent == old(channel.sent) + DownloadSpec(r).events
    ensures res == DownloadSpec(r).result
    ensures fs.dirs == old(fs.dirs)
    ensures fs.files == if DownloadSpec(r).file.Some? then old(fs.files)[savePath := DownloadSpec(r).file.value] else old(fs.files)
  {
    ghost var spec := DownloadSpec(r);
    if r.send.Err? {
      res := Err("Failed to send request: " + r.send.error);
      return;
    }
    var resp := r.send.value;
    if !IsSuccess(resp.status) {
      res := Err("Download failed with status: " + StatusText(resp));
      return;
    }

    var contentLength := resp.contentLength.GetOr(0);
    channel.Send(Preflight(contentLength));

    var created := fs.Create(savePath, r.createFault);
    if created.Err? {
      assert spec == Download([Preflight(contentLength)], Err("Failed to create file: " + r.createFault.value.message), None);
      res := Err("Failed to create file: " + created.error.message);
      return;
    }

    var failure := CopyBody(resp.body, savePath, channel, fs, contentLength);
    ghost var t := Fold(resp.body, contentLength);
    assert spec == Download([Preflight(contentLength)] + t.events, if t.failure.Some? then Err(t.failure.value) else Ok(()), Some(t.written));
    res := if failure.Some? then Err(failure.value) else Ok(());
  }

  /** The chunk loop: each chunk is written to the file, counted, and may be
      reported; the first read or write error stops it. */
  method CopyBody(body: seq<Item>, savePath: string, channel: EventChannel, fs: FileSystem, contentLength: nat)
    returns (failure: Option<string>)
    requires savePath in fs.files && fs.files[savePath] == []
    modifies channel, fs
    ensures failure == Fold(body, contentLength).failure
    ensures channel.sent == old(channel.sent) + Fold(body, contentLength).events
    ensures fs.dirs == old(fs.dirs)
    ensures fs.files == old(fs.files)[savePath := Fold(body, contentLength).written]
  {
    var downloaded: nat := 0;
    var i := 0;
    while i < |body|
      invariant 0 <= i <= |body|
      invariant Fold(body[..i], contentLength).failure.None?
      invariant downloaded == Fold(body[..i], contentLength).downloaded
      invariant fs.files == old(fs.files)[savePath := Fold(body[..i], contentLength).written]
      invariant fs.dirs == old(fs.dirs)
      invariant channel.sent == old(channel.sent) + Fold(body[..i], contentLength).events
    {
      FoldNext(body, i, contentLength);
      var stopped;
      stopped, downloaded := CopyItem(body[i], savePath, channel, fs, contentLength, downloaded,
                                      Fold(body[..i], contentLength), old(channel.sent), old(fs.files));
      if stopped.Some? {
        FoldStops(body, i + 1, contentLength);
        return stopped;
      }
      i := i + 1;
    }
    assert body[..i] == body;
    return None;
  }

  /** One iteration of the chunk loop, on top of the transfer `t` so far:
      `sent` and `files` are the log and the files before the loop. */
  method CopyItem(item: Item, savePath: string, channel: EventChannel, fs: FileSystem, contentLength: nat, downloaded: nat,
                  ghost t: Transfer, ghost sent: seq<ProgressEvent>, ghost files: map<string, seq<byte>>)
    returns (failure: Option<string>, total: nat)
    requires t.failure.None? && downloaded == t.downloaded
    requires fs.files == files[savePath := t.written] && channel.sent == sent + t.events
    modifies channel, fs
    ensures failure == Step(t, item, contentLength).failure
    ensures fs.dirs == old(fs.dirs)
    ensures failure.None? ==> total == Step(t, item, contentLength).downloaded
    ensures fs.files == files[savePath := Step(t, item, contentLength).written]
    ensures channel.sent == sent + Step(t, item, contentLength).events
  {
    total := downloaded;
    match item
    case ReadFailure(m) =>
      failure := Some("Failed reading download stream: " + m);
    case Chunk(data, fault) =>
      var w := fs.WriteAll(savePath, data, fault);
      if w.Err? {
        failure := Some("Failed to write file: " + w.error.message);
      } else {
        failure := None;
        total := downloaded + |data|;
        ReportChunk(channel, total, |data|, contentLength);
        AppendAssoc(sent, t.events, ChunkEvents(total, |data|, contentLength));
      }
  }

  /** The loop over one more item is one more iteration. */
  lemma {:induction false} FoldNext(items: seq<Item>, i: nat, contentLength: nat)
    requires i < |items|
    ensures Fold(items[..i + 1], contentLength) == Step(Fold(items[..i], contentLength), items[i], contentLength)
  {
    assert items[..i + 1][..i] == items[..i];
  }

  /** The progress check after a chunk was written. */
  method ReportChunk(channel: EventChannel, downloaded: nat, len: nat, contentLength: nat)
    modifies channel
    ensures channel.sent == old(channel.sent) + ChunkEvents(downloaded, len, contentLength)
  {
    if contentLength > 0 {
      if downloaded % FiveMiB < len || TenPercentTick(downloaded, len, contentLength) {
        channel.Send(New("downloading",
                         "Downloaded: " + Megabytes(downloaded, 1) + " MB (" + FormatFixed(downloaded * 100, contentLength, 0) + "%)",
                         Some(NormalizedProgress(downloaded, contentLength))));
      }
    } else if downloaded % FiveMiB < len {
      channel.Send(New("downloading", "Downloaded: " + Megabytes(downloaded, 1) + " MB", Some(30.0)));
    }
  }

  // ---------------------------------------------------------------------
  // Properties of the chunk loop

  /** The data of the chunks among `items`, in order. */
  function ChunkData(items: seq<Item>): seq<seq<byte>>
  {
    if items == [] then []
    else ChunkData(items[..|items| - 1]) + (if items[|items| - 1].Chunk? then [items[|items| - 1].data] else [])
  }

  /** An item that stops the loop. */
  predicate Fails(item: Item)
  {
    item.ReadFailure? || item.writeFault.Some?
  }

  /** A loop that ran to the end saw only chunks that were written; the file
      holds all of them concatenated in order, and the count is their length. */
  lemma {:induction false} CompletedTransfer(items: seq<Item>, contentLength: nat)
    requires Fold(items, contentLength).failure.None?
    ensures forall k :: 0 <= k < |items| ==> !Fails(items[k])
    ensures Fold(items, contentLength).written == Concat(ChunkData(items))
    ensures Fold(items, contentLength).downloaded == |Concat(ChunkData(items))|
  {
    if items != [] {
      var init := items[..|items| - 1];
      var last := items[|items| - 1];
      StepCompleted(Fold(init, contentLength), last, contentLength);
      CompletedTransfer(init, contentLength);
      forall k | 0 <= k < |items| ensures !Fails(items[k]) {
        if k < |init| { assert items[k] == init[k]; }
      }
      assert ChunkData(items) == ChunkData(init) + [last.data];
      assert Concat(ChunkData(items)) == Concat(ChunkData(init)) + last.data;
    }
  }

  /** An iteration that leaves the loop running was a written chunk. */
  lemma {:induction false} StepCompleted(t: Transfer, item: Item, contentLength: nat)
    requires Step(t, item, contentLength).failure.None?
    ensures t.failure.None? && !Fails(item)
    ensures Step(t, item, contentLength).written == t.written + item.data
    ensures Step(t, item, contentLength).downloaded == t.downloaded + |item.data|
  {
  }

  /** `t` is the state of a loop over `items` that stopped at item `k`: the
      first failing one. */
  predicate StopsAt(items: seq<Item>, k: int, t: Transfer)
  {
    && 0 <= k < |items| && Fails(items[k])
    && (forall j :: 0 <= j < k ==> !Fails(items[j]))
    && t.written == Concat(ChunkData(items[..k]))
    && t.failure == Some(
         if items[k].ReadFailure? then "Failed reading download stream: " + items[k].message
         else "Failed to write file: " + items[k].writeFault.value.message)
  }

  /** A loop that stopped stopped at the first failing item; the file keeps
      the chunks before it (it is not removed), and the error names the cause. */
  lemma {:induction false} StoppedTransfer(items: seq<Item>, contentLength: nat)
    requires Fold(items, contentLength).failure.Some?
    ensures exists k :: StopsAt(items, k, Fold(items, contentLength))
  {
    var init := items[..|items| - 1];
    if Fold(init, contentLength).failure.Some? {
      StoppedTransfer(init, contentLength);
      assert Fold(items, contentLength) == Fold(init, contentLength);
      var k :| StopsAt(init, k, Fold(init, contentLength));
      assert items[k] == init[k];
      assert items[..k] == init[..k];
      forall j | 0 <= j < k ensures !Fails(items[j]) { assert items[j] == init[j]; }
      assert StopsAt(items, k, Fold(items, contentLength));
    } else {
      var k := |items| - 1;
      CompletedTransfer(init, contentLength);
      assert items[..k] == init;
      forall j | 0 <= j < k ensures !Fails(items[j]) { assert items[j] == init[j]; }
      assert Fold(items, contentLength) == Step(Fold(init, contentLength), items[k], contentLength);
      assert StopsAt(items, k, Fold(items, contentLength));
    }
  }

  /** The progress values of a loop state: non-decreasing; with a known
      length, between 15 and the value for the current count; with an
      unknown length, always 30. */
  ghost predicate ProgressInvariant(t: Transfer, contentLength: nat)
  {
    var p := Progresses(t.events);
    && NonDecreasing(p)
    && (contentLength > 0 ==> forall i :: 0 <= i < |p| ==> 15.0 <= p[i] <= NormalizedProgress(t.downloaded, contentLength))
    && (contentLength == 0 ==> forall i :: 0 <= i < |p| ==> p[i] == 30.0)
  }

  lemma {:induction false} ProgressesSnoc(events: seq<ProgressEvent>, e: ProgressEvent)
    requires e.progress.Some?
    ensures Progresses(events + [e]) == Progresses(events) + [e.progress.value]
  {
    assert (events + [e])[..|events|] == events;
  }

  lemma {:induction false} StepKeepsProgressInvariant(t: Transfer, item: Item, contentLength: nat)
    requires t.failure.None? && ProgressInvariant(t, contentLength)
    ensures ProgressInvariant(Step(t, item, contentLength), contentLength)
  {
    if item.Chunk? && item.writeFault.None? {
      var d := t.downloaded + |item.data|;
      var ev := ChunkEvent(d, |item.data|, contentLength);
      var p := Progresses(t.events);
      if contentLength > 0 {
        NormalizedProgressRange(t.downloaded, d, contentLength);
      }
      if ev.Some? {
        var v := ev.value.progress.value;
        assert Step(t, item, contentLength).events == t.events + [ev.value];
        ProgressesSnoc(t.events, ev.value);
        assert contentLength > 0 ==> v == NormalizedProgress(d, contentLength);
        assert contentLength == 0 ==> v == 30.0;
        var p' := p + [v];
        assert Progresses(Step(t, item, contentLength).events) == p';
        assert Step(t, item, contentLength).downloaded == d;
        forall i | 0 <= i < |p| ensures p[i] <= v {
          if contentLength > 0 {
            assert p[i] <= NormalizedProgress(t.downloaded, contentLength);
          }
        }
        forall i, j | 0 <= i < j < |p'| ensures p'[i] <= p'[j] {
          if j < |p| {
            assert p'[i] == p[i] && p'[j] == p[j];
          } else {
            assert p'[i] == p[i];
          }
        }
      } else {
        assert Step(t, item, contentLength).events == t.events;
        assert Step(t, item, contentLength).downloaded == d;
      }
    }
  }

  /** The progress values the chunk loop reports keep `ProgressInvariant`. */
  lemma {:induction false} LoopProgress(items: seq<Item>, contentLength: nat)
    ensures ProgressInvariant(Fold(items, contentLength), contentLength)
  {
    if items != [] {
      var init := items[..|items| - 1];
      LoopProgress(init, contentLength);
      if Fold(init, contentLength).failure.None? {
        StepKeepsProgressInvariant(Fold(init, contentLength), items[|items| - 1], contentLength);
      }
    }
  }

  /** The count the loop reaches is at most the length of all chunk data. */
  lemma {:induction false} DownloadedBound(items: seq<Item>, contentLength: nat)
    ensures Fold(items, contentLength).downloaded <= TotalLength(ChunkData(items))
  {
    if items != [] {
      var init := items[..|items| - 1];
      var last := items[|items| - 1];
      DownloadedBound(init, contentLength);
      var extra := if last.Chunk? then [last.data] else [];
      assert ChunkData(items) == ChunkData(init) + extra;
      assert Fold(items, contentLength) == Step(Fold(init, contentLength), last, contentLength);
      if last.Chunk? {
        TotalLengthSnoc(ChunkData(init), last.data);
        assert Step(Fold(init, contentLength), last, contentLength).downloaded <= Fold(init, contentLength).downloaded + |last.data|;
      } else {
        assert ChunkData(items) == ChunkData(init);
      }
    }
  }

  /** The shape of a download's progress values: non-decreasing and at
      least 15; with a known length `cl` and a body of `total` bytes no
      longer than announced, at most 50; with an unknown length, 30 after the
      first. */
  ghost predicate ProgressShape(p: seq<real>, cl: nat, total: nat)
  {
    && NonDecreasing(p)
    && (forall i :: 0 <= i < |p| ==> 15.0 <= p[i])
    && (cl > 0 && total <= cl ==> forall i :: 0 <= i < |p| ==> p[i] <= 50.0)
    && (cl == 0 ==> forall i :: 1 <= i < |p| ==> p[i] == 30.0)
  }

  /** The progress values of a whole download have that shape. */
  lemma {:induction false} DownloadProgress(r: Request)
    requires r.send.Ok?
    ensures ProgressShape(Progresses(DownloadSpec(r).events), r.send.value.contentLength.GetOr(0),
                          TotalLength(ChunkData(r.send.value.body)))
  {
    var d := DownloadSpec(r);
    var resp := r.send.value;
    var cl := resp.contentLength.GetOr(0);
    var total := TotalLength(ChunkData(resp.body));
    if !IsSuccess(resp.status) {
      assert d.events == [];
      assert ProgressShape([], cl, total);
    } else if r.createFault.Some? {
      assert d.events == [Preflight(cl)];
      assert Progresses([Preflight(cl)]) == [15.0];
      assert ProgressShape([15.0], cl, total);
    } else {
      assert d.events == [Preflight(cl)] + Fold(resp.body, cl).events;
      StreamedProgress(resp.body, cl);
    }
  }

  /** The progress values of the pre-flight event followed by the streamed
      chunks' events. */
  lemma {:induction false} StreamedProgress(body: seq<Item>, cl: nat)
    ensures ProgressShape(Progresses([Preflight(cl)] + Fold(body, cl).events), cl, TotalLength(ChunkData(body)))
  {
    var pre := Preflight(cl);
    var total := TotalLength(ChunkData(body));
    assert Progresses([pre]) == [15.0];
    var t := Fold(body, cl);
    LoopProgress(body, cl);
    ProgressesAppend([pre], t.events);
    var q := Progresses(t.events);
    assert Progresses([pre] + t.events) == [15.0] + q;
    if cl > 0 {
      NormalizedProgressRange(0, t.downloaded, cl);
      if total <= cl {
        DownloadedBound(body, cl);
        NormalizedProgressRange(t.downloaded, cl, cl);
      }
    }
    PreflightFirst(q, cl, total);
  }

  /** The pre-flight 15 in front of the chunks' values keeps their shape. */
  lemma {:induction false} PreflightFirst(q: seq<real>, cl: nat, total: nat)
    requires NonDecreasing(q)
    requires forall i :: 0 <= i < |q| ==> 15.0 <= q[i]
    requires cl > 0 && total <= cl ==> forall i :: 0 <= i < |q| ==> q[i] <= 50.0
    requires cl == 0 ==> forall i :: 0 <= i < |q| ==> q[i] == 30.0
    ensures ProgressShape([15.0] + q, cl, total)
  {
    var p := [15.0] + q;
    forall i | 1 <= i < |p| ensures p[i] == q[i - 1] {}
    forall i, j | 0 <= i < j < |p| ensures p[i] <= p[j] {
      if i > 0 {
        assert p[i] == q[i - 1] && p[j] == q[j - 1];
      }
    }
  }

  /** Every event the download sends is a `downloading` event. */
  lemma {:induction false} DownloadEventTypes(r: Request)
    ensures forall i :: 0 <= i < |DownloadSpec(r).events| ==> DownloadSpec(r).events[i].eventType == "downloading"
  {
    if r.send.Ok? && IsSuccess(r.send.value.status) && r.createFault.None? {
      var cl := r.send.value.contentLength.GetOr(0);
      var f := Fold(r.send.value.body, cl).events;
      FoldEventTypes(r.send.value.body, cl);
      var e := DownloadSpec(r).events;
      assert e == [Preflight(cl)] + f;
      forall i | 0 <= i < |e| ensures e[i].eventType == "downloading" {
        if i > 0 {
          assert e[i] == f[i - 1];
        }
      }
    }
  }

  lemma {:induction false} FoldEventTypes(items: seq<Item>, contentLength: nat)
    ensures forall i :: 0 <= i < |Fold(items, contentLength).events| ==> Fold(items, contentLength).events[i].eventType == "downloading"
  {
    if items != [] {
      var t := Fold(items[..|items| - 1], contentLength);
      var item := items[|items| - 1];
      FoldEventTypes(items[..|items| - 1], contentLength);
      if t.failure.None? && item.Chunk? && item.writeFault.None? {
        var d := t.downloaded + |item.data|;
        var ce := ChunkEvents(d, |item.data|, contentLength);
        assert forall i :: 0 <= i < |ce| ==> ce[i].eventType == "downloading";
        var e := Fold(items, contentLength).events;
        assert e == t.events + ce;
        forall i | 0 <= i < |e| ensures e[i].eventType == "downloading" {
          if i < |t.events| {
            assert e[i] == t.events[i];
          } else {
            assert e[i] == ce[i - |t.events|];
          }
        }
      }
    }
  }
}

/** What the multipart loops of `upload_and_extract` promise: the file holds
    every chunk in order, a failure sends exactly one `error` event, and the
    progress reports stay between 10 and 50 but can go down when a second
    field starts. */
module UploadProperties {
  import opened Base
  import opened Events
  import opened Text
  import opened Handlers

  /** The bytes of a field's chunks, in order. */
  function PartsData(parts: seq<Part>): seq<byte>
  {
    if parts == [] then []
    else
      var last := parts[|parts| - 1];
      PartsData(parts[..|parts| - 1]) + (if last.Data? then last.bytes else [])
  }

  /** The bytes of every field's chunks, in order. */
  function FieldsData(fields: seq<Field>): seq<byte>
  {
    if fields == [] then []
    else
      var last := fields[|fields| - 1];
      FieldsData(fields[..|fields| - 1]) + (if last.Field? then PartsData(last.parts) else [])
  }

  lemma {:induction false} PartsFoldData(u0: Upload, parts: seq<Part>)
    requires u0.failure.None?
    ensures var u := PartsFold(u0, parts);
      u.failure.None? ==>
        && u.written == u0.written + PartsData(parts)
        && u.total == u0.total + |PartsData(parts)|
        && u.fieldBytes == u0.fieldBytes + |PartsData(parts)|
  {
    if parts != [] {
      var init := parts[..|parts| - 1];
      var last := parts[|parts| - 1];
      PartsFoldData(u0, init);
      if last.Data? {
        assert u0.written + PartsData(init) + last.bytes == u0.written + (PartsData(init) + last.bytes);
      }
    } else {
      assert u0.written + [] == u0.written;
    }
  }

  /** A completed upload wrote every chunk of every field to the file, in
      order, and `total_bytes` is their number. */
  lemma {:induction false} UploadWritesEverything(fields: seq<Field>)
    ensures var u := FieldsFold(fields);
      u.failure.None? ==> u.written == FieldsData(fields) && u.total == |FieldsData(fields)|
  {
    if fields != [] {
      var init := fields[..|fields| - 1];
      var last := fields[|fields| - 1];
      UploadWritesEverything(init);
      var u := FieldsFold(init);
      if u.failure.None? && last.Field? {
        PartsFoldData(FieldStart(u), last.parts);
      }
    }
  }

  /** The events the loops send: "Uploading file..." at 10, a report for a
      field count that is a multiple of 512 KiB, or an error. */
  ghost predicate UploadEvent(e: ProgressEvent)
  {
    || e == UploadingFile
    || (e.eventType == "error" && e.progress.None?)
    || exists fb: nat :: fb % TickBytes == 0 && e == UploadTick(fb)
  }

  ghost predicate UploadLog(u: Upload)
  {
    && (forall i :: 0 <= i < |u.events| ==> UploadEvent(u.events[i]))
    && CountType(u.events, "error") == if u.failure.Some? then 1 else 0
  }

  lemma {:induction false} AppendUploadEvents(u: Upload, added: seq<ProgressEvent>)
    requires forall i :: 0 <= i < |u.events| ==> UploadEvent(u.events[i])
    requires forall i :: 0 <= i < |added| ==> UploadEvent(added[i])
    ensures forall i :: 0 <= i < |u.events + added| ==> UploadEvent((u.events + added)[i])
  {
    forall i | 0 <= i < |u.events + added| ensures UploadEvent((u.events + added)[i]) {
      if i < |u.events| {
        assert (u.events + added)[i] == u.events[i];
      } else {
        assert (u.events + added)[i] == added[i - |u.events|];
      }
    }
  }

  lemma {:induction false} PartStepLog(u: Upload, p: Part)
    requires UploadLog(u)
    ensures UploadLog(PartStep(u, p))
  {
    if u.failure.None? {
      if p.PartError? || p.writeFault.Some? {
        PartFailureLog(u, p);
      } else {
        PartWrittenLog(u, p);
      }
    }
  }

  /** A part that fails adds its one `error` event. */
  lemma {:induction false} PartFailureLog(u: Upload, p: Part)
    requires UploadLog(u) && u.failure.None? && (p.PartError? || p.writeFault.Some?)
    ensures UploadLog(PartStep(u, p))
  {
    var m := if p.PartError? then "Upload error: " + p.message else "Error writing to file: " + p.writeFault.value.message;
    var e := ErrorEvent(m);
    assert PartStep(u, p).events == u.events + [e] && PartStep(u, p).failure.Some?;
    CountTypeSingle(e, "error");
    ExtendLog(u, PartStep(u, p), [e]);
  }

  /** A written part adds at most one progress report. */
  lemma {:induction false} PartWrittenLog(u: Upload, p: Part)
    requires UploadLog(u) && u.failure.None? && p.Data? && p.writeFault.None?
    ensures UploadLog(PartStep(u, p))
  {
    var fb := u.fieldBytes + |p.bytes|;
    var added := TickEvents(fb);
    assert PartStep(u, p).events == u.events + added && PartStep(u, p).failure.None?;
    if fb % TickBytes == 0 {
      assert added == [UploadTick(fb)];
      assert UploadEvent(UploadTick(fb));
      CountTypeSingle(UploadTick(fb), "error");
    }
    ExtendLog(u, PartStep(u, p), added);
  }

  /** A log extended by events of the loops, with one `error` among them
      exactly when the new state has failed. */
  lemma {:induction false} ExtendLog(u: Upload, v: Upload, added: seq<ProgressEvent>)
    requires UploadLog(u) && u.failure.None?
    requires v.events == u.events + added
    requires forall i :: 0 <= i < |added| ==> UploadEvent(added[i])
    requires CountType(added, "error") == if v.failure.Some? then 1 else 0
    ensures UploadLog(v)
  {
    AppendUploadEvents(u, added);
    CountTypeAppend(u.events, added, "error");
  }

  lemma {:induction false} PartsFoldLog(u0: Upload, parts: seq<Part>)
    requires UploadLog(u0)
    ensures UploadLog(PartsFold(u0, parts))
  {
    if parts != [] {
      PartsFoldLog(u0, parts[..|parts| - 1]);
      PartStepLog(PartsFold(u0, parts[..|parts| - 1]), parts[|parts| - 1]);
    }
  }

  lemma {:induction false} FieldStepLog(u: Upload, f: Field)
    requires UploadLog(u)
    ensures UploadLog(FieldStep(u, f))
  {
    if u.failure.None? {
      var v := FieldStep(u, f);
      if f.FieldError? {
        var e := ErrorEvent("Upload error: " + f.message);
        AppendUploadEvents(u, [e]);
        CountTypeAppend(u.events, [e], "error");
        CountTypeSingle(e, "error");
      } else {
        var s := FieldStart(u);
        AppendUploadEvents(u, [UploadingFile]);
        CountTypeAppend(u.events, [UploadingFile], "error");
        CountTypeSingle(UploadingFile, "error");
        PartsFoldLog(s, f.parts);
      }
    }
  }

  /** The loops send only the three kinds of event above, and an upload the
      loops stopped sent exactly one `error` event (a finished one none). */
  lemma {:induction false} UploadEvents(fields: seq<Field>)
    ensures var u := FieldsFold(fields);
      && (forall i :: 0 <= i < |u.events| ==> UploadEvent(u.events[i]))
      && CountType(u.events, "error") == if u.failure.Some? then 1 else 0
  {
    if fields != [] {
      UploadEvents(fields[..|fields| - 1]);
      FieldStepLog(FieldsFold(fields[..|fields| - 1]), fields[|fields| - 1]);
    }
  }

  /** Every progress value the loops report lies between 10 and 50. */
  lemma {:induction false} UploadEventsProgress(events: seq<ProgressEvent>)
    requires forall i :: 0 <= i < |events| ==> UploadEvent(events[i])
    ensures forall i :: 0 <= i < |Progresses(events)| ==> 10.0 <= Progresses(events)[i] <= 50.0
  {
    if events != [] {
      var init := events[..|events| - 1];
      var last := events[|events| - 1];
      UploadEventsProgress(init);
      assert UploadEvent(last);
      if last.progress.Some? && last != UploadingFile {
        var fb: nat :| fb % TickBytes == 0 && last == UploadTick(fb);
        assert last.progress.value == ScaledUpload(fb);
      }
    }
  }

  lemma {:induction false} UploadProgressRange(fields: seq<Field>)
    ensures var p := Progresses(FieldsFold(fields).events);
      forall i :: 0 <= i < |p| ==> 10.0 <= p[i] <= 50.0
  {
    UploadEvents(fields);
    UploadEventsProgress(FieldsFold(fields).events);
  }

  /** A chunk of exactly 512 KiB. */
  function TickChunk(): Part
  {
    Data(seq(TickBytes, _ => 0 as byte), None)
  }

  /** A field of one 512 KiB chunk announces itself at 10 and reports once. */
  lemma {:induction false} OneChunkField(u: Upload)
    requires u.failure.None?
    ensures FieldStep(u, Field(None, [TickChunk()])).events == u.events + [UploadingFile, UploadTick(TickBytes)]
    ensures FieldStep(u, Field(None, [TickChunk()])).failure.None?
  {
    var s := FieldStart(u);
    assert [TickChunk()][..0] == [];
    assert PartsFold(s, [TickChunk()]) == PartStep(s, TickChunk());
    assert TickEvents(TickBytes) == [UploadTick(TickBytes)];
    assert u.events + [UploadingFile] + [UploadTick(TickBytes)] == u.events + [UploadingFile, UploadTick(TickBytes)];
  }

  /** Two fields of one 512 KiB chunk each: each announces itself and
      reports once. */
  lemma {:induction false} TwoChunkFields()
    ensures var f := Field(None, [TickChunk()]);
      FieldsFold([f, f]).events == [UploadingFile, UploadTick(TickBytes), UploadingFile, UploadTick(TickBytes)]
  {
    var f := Field(None, [TickChunk()]);
    var twice := [f, f];
    FieldsFoldNext(twice, 0);
    FieldsFoldNext(twice, 1);
    assert twice[..0] == [] && twice[..2] == twice;
    OneChunkField(FieldsFold([]));
    OneChunkField(FieldsFold(twice[..1]));
  }

  /** The field loop over one more field is one more iteration. */
  lemma {:induction false} FieldsFoldNext(fields: seq<Field>, i: nat)
    requires i < |fields|
    ensures FieldsFold(fields[..i + 1]) == FieldStep(FieldsFold(fields[..i]), fields[i])
  {
    assert fields[..i + 1][..i] == fields[..i];
  }

  /** Each field starts again at 10, so two fields of one 512 KiB chunk each
      report 10, 10.5, 10, 10.5: the upload's progress is not monotone. */
  lemma {:induction false} UploadProgressCanDecrease()
    ensures var f := Field(None, [TickChunk()]);
      var p := Progresses(FieldsFold([f, f]).events);
      p == [10.0, 10.5, 10.0, 10.5] && !NonDecreasing(p)
  {
    TwoChunkFields();
    var tick := UploadTick(TickBytes);
    var half := [UploadingFile, tick];
    assert [UploadingFile, tick, UploadingFile, tick] == half + half;
    assert half == [UploadingFile] + [tick];
    assert ScaledUpload(TickBytes) == 10.5;
    ProgressesAppend(half, half);
    ProgressesAppend([UploadingFile], [tick]);
    ProgressesSingle(UploadingFile);
    ProgressesSingle(tick);
    var p := Progresses(half + half);
    assert p[1] > p[2];
  }
}

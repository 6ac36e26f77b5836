/** `chooseSmallerFileAndModifyContentType` (index.js:149-180) and the end of
    the compressed-upload chain that uses its result (index.js:115-126, 135-147). */
module Arbiter {

  import opened Wrappers
  import opened JsObjects
  import opened Dispatch
  import Paths

  /** What the arbiter resolves with, seen as values: the temporary gzip file to
      remove afterwards, the file to upload, and the metadata to send. */
  datatype Decision = Decision(zippedTmpFile: string, fileToUpload: string, updatedMetadata: MetaValue)

  /** index.js:161-175: keep the original only when it is strictly smaller than
      its gzip form; otherwise upload the gzip form and mark the metadata with
      `contentEncoding: 'gzip'`. Either way the temporary file is handed back.
      The metadata has already received `contentType` at line 112, so it is
      neither null nor undefined. */
  function Arbitrate(compressedFile: string, originalFile: string, originalSize: nat, compressedSize: nat,
                     metadata: MetaValue): (d: Decision)
    requires !metadata.MNull? && !metadata.MUndefined?
    ensures d.zippedTmpFile == compressedFile
    ensures originalSize < compressedSize ==> d.fileToUpload == originalFile && d.updatedMetadata == metadata
    ensures compressedSize <= originalSize ==>
              && d.fileToUpload == compressedFile
              && Some(d.updatedMetadata) == WithProperty(metadata, "contentEncoding", "gzip")
  {
    if originalSize < compressedSize then
      Decision(compressedFile, originalFile, metadata)
    else
      Decision(compressedFile, compressedFile, WithProperty(metadata, "contentEncoding", "gzip").value)
  }

  /** The point of the rule: the bytes sent are never more than either form,
      and ties go to the gzip form. */
  lemma UploadsTheSmaller(compressedFile: string, originalFile: string, originalSize: nat, compressedSize: nat,
                          metadata: MetaValue)
    requires !metadata.MNull? && !metadata.MUndefined?
    requires compressedFile != originalFile
    ensures var d := Arbitrate(compressedFile, originalFile, originalSize, compressedSize, metadata);
            var sent := if d.fileToUpload == compressedFile then compressedSize else originalSize;
            && sent <= originalSize && sent <= compressedSize
            && (d.fileToUpload == compressedFile <==> compressedSize <= originalSize)
  {
  }

  /** With metadata objects that carry no `contentEncoding` of their own,
      `contentEncoding: 'gzip'` is present exactly when the gzip form is sent. */
  lemma GzipEncodingIffCompressedSent(compressedFile: string, originalFile: string, originalSize: nat,
                                      compressedSize: nat, props: map<string, string>)
    requires compressedFile != originalFile && "contentEncoding" !in props
    ensures var d := Arbitrate(compressedFile, originalFile, originalSize, compressedSize, MObject(props));
            && d.updatedMetadata.MObject?
            && ("contentEncoding" in d.updatedMetadata.props <==> d.fileToUpload == compressedFile)
            && ("contentEncoding" in d.updatedMetadata.props ==> d.updatedMetadata.props["contentEncoding"] == "gzip")
  {
  }

  /** `fs.stat` failed on this path (index.js:152-154, 157-159). */
  datatype StatError = StatError(path: string)

  /** The whole arbiter on values: the gzip file is stat-ed first, then the
      original; the first failure rejects. */
  function Decide(compressedFile: string, originalFile: string, compressedStat: Option<nat>,
                  originalStat: Option<nat>, metadata: MetaValue): (r: Result<Decision, StatError>)
    requires !metadata.MNull? && !metadata.MUndefined?
    ensures r.Ok? <==> compressedStat.Some? && originalStat.Some?
    ensures r.Ok? ==> r.value == Arbitrate(compressedFile, originalFile, originalStat.value, compressedStat.value, metadata)
    ensures compressedStat.None? ==> r == Err(StatError(compressedFile))
    ensures compressedStat.Some? && originalStat.None? ==> r == Err(StatError(originalFile))
  {
    if compressedStat.None? then Err(StatError(compressedFile))
    else if originalStat.None? then Err(StatError(originalFile))
    else Ok(Arbitrate(compressedFile, originalFile, originalStat.value, compressedStat.value, metadata))
  }

  /** What the arbiter's promise resolves with: the metadata is the caller's own
      object, mutated in place. */
  datatype Chosen = Chosen(zippedTmpFile: string, fileToUpload: string, updatedMetadata: JsValue)

  /** index.js:149-180. On success the returned metadata is the very object it
      was given, now holding the decision's metadata; on a stat failure it is
      left alone. */
  method ChooseSmallerFileAndModifyContentType(compressedFile: string, originalFile: string, metadata: JsValue,
                                               compressedStat: Option<nat>, originalStat: Option<nat>)
    returns (r: Result<Chosen, StatError>)
    requires !metadata.Null? && !metadata.Undefined?
    modifies if metadata.Ref? then {metadata.obj} else {}
    ensures metadata.Ref? ==> metadata.obj.inherited == old(metadata.obj.inherited)
    ensures r.Ok? ==> r.value.updatedMetadata == metadata
    ensures match Decide(compressedFile, originalFile, compressedStat, originalStat, old(View(metadata)))
            case Ok(d) => r.Ok? && d == Decision(r.value.zippedTmpFile, r.value.fileToUpload, View(metadata))
            case Err(e) => r == Err(e) && View(metadata) == old(View(metadata))
  {
    if compressedStat.None? {
      return Err(StatError(compressedFile));
    }
    if originalStat.None? {
      return Err(StatError(originalFile));
    }
    if originalStat.value < compressedStat.value {
      r := Ok(Chosen(compressedFile, originalFile, metadata));
    } else {
      var _ := SetProperty(metadata, "contentEncoding", "gzip");
      r := Ok(Chosen(compressedFile, compressedFile, metadata));
    }
  }

  /** index.js:109-116 and 149-180 for one file with `zip` on: the metadata is
      cloned and written twice (contentType, then possibly contentEncoding), and
      the caller's `options.metadata` is never touched, because both writes land
      on the fresh copy. The gzip output is `name + '.zip'` (line 197). */
  method PrepareCompressedUpload(f: File, options: Options, lookup: string -> string,
                                 compressedStat: Option<nat>, originalStat: Option<nat>)
    returns (a: Action, r: Option<Result<Chosen, StatError>>)
    ensures a == Classify(f, options.cwd, Cloned(options.metadata), options.zip, lookup)
    ensures options.metadata.Ref? ==> unchanged(options.metadata.obj)
    ensures r.Some? <==> a.Upload? && options.zip
    ensures a.Upload? && options.zip ==> match Decide(Paths.TempName(f.name), f.name, compressedStat, originalStat, a.metadata)
                          case Ok(d) => r.value.Ok? && d == Decision(r.value.value.zippedTmpFile,
                                                                      r.value.value.fileToUpload,
                                                                      View(r.value.value.updatedMetadata))
                          case Err(e) => r.value == Err(e)
  {
    var metadata;
    a, metadata := PrepareFile(f, options, lookup);
    if !a.Upload? || !options.zip {
      return a, None;
    }
    var chosen := ChooseSmallerFileAndModifyContentType(Paths.TempName(f.name), f.name, metadata,
                                                        compressedStat, originalStat);
    r := Some(chosen);
  }

  /** Outcome of the remote upload call. */
  datatype UploadResult = Uploaded | UploadFailed

  /** index.js:137: in a test run the upload is replaced by a no-op that always
      reports success. */
  function UploadCall(testRun: bool, service: UploadResult): (u: UploadResult)
    ensures testRun ==> u == Uploaded
    ensures !testRun ==> u == service
  {
    if testRun then Uploaded else service
  }

  /* The tail after the arbiter (index.js:115-126) is modelled by what each
     promise does once it is reached: its settlement and its effects, with Q's
     `then` and `finally` as `Then` and `Finally` below. The module Chain
     applies the same rule of Q to the first link (`preparation.then(x)`),
     where what matters is instead when the argument's work starts against
     preparation's settlement; `UploadIssued` here and
     `WorkStarted(UploadBlob(..))` there are the same upload call, seen from
     the two sides. */

  /** How far a promise of the chain has got. */
  datatype Settlement = Fulfilled | Rejected | Pending

  /** What the chain does that can be observed from outside. */
  datatype Effect = UploadIssued(file: string) | ErrorEmitted | CallbackRun | Unlinked(path: string)

  /** A promise together with the effects that happened on the way to it. */
  datatype Call = Call(settlement: Settlement, effects: seq<Effect>)

  /** The arbiter's promise (line 116): resolved with the decision, rejected by
      a stat failure (lines 153, 158). */
  function ArbiterCall(decision: Result<Decision, StatError>): (c: Call)
    ensures c.effects == [] && c.settlement == (if decision.Ok? then Fulfilled else Rejected)
  {
    Call(if decision.Ok? then Fulfilled else Rejected, [])
  }

  /** `uploadFileToAzureCdn` as written (lines 136-146): success resolves the
      deferred (line 144); failure emits the error and calls back (lines
      139-141) and never touches the deferred, which stays pending. */
  function UploadAsWritten(file: string, up: UploadResult): (c: Call)
    ensures c.effects == [UploadIssued(file)] + (if up == UploadFailed then [ErrorEmitted, CallbackRun] else [])
    ensures c.settlement != Rejected
    ensures c.settlement == Pending <==> up == UploadFailed
    ensures ErrorEmitted in c.effects <==> up == UploadFailed
    ensures CallbackRun in c.effects <==> up == UploadFailed
  {
    match up
    case Uploaded => Call(Fulfilled, [UploadIssued(file)])
    case UploadFailed => Call(Pending, [UploadIssued(file), ErrorEmitted, CallbackRun])
  }

  /** The same call with `deferred.reject(err)` in place of lines 140-141. */
  function UploadRejecting(file: string, up: UploadResult): (c: Call)
    ensures c.effects == [UploadIssued(file)]
    ensures c.settlement == (if up == Uploaded then Fulfilled else Rejected)
  {
    match up
    case Uploaded => Call(Fulfilled, [UploadIssued(file)])
    case UploadFailed => Call(Rejected, [UploadIssued(file)])
  }

  /** Q's `p.then(onFulfilled, onRejected)`: the handler for the way `p`
      settled runs and its promise takes over; with no rejection handler a
      rejection passes through; a pending `p` runs nothing. */
  function Then(p: Call, onFulfilled: Call, onRejected: Option<Call>): (r: Call)
    ensures p.settlement == Pending ==> r == p
    ensures p.settlement == Rejected && onRejected.None? ==> r == p
    ensures p.settlement == Fulfilled ==>
              r.settlement == onFulfilled.settlement && r.effects == p.effects + onFulfilled.effects
    ensures p.settlement == Rejected && onRejected.Some? ==>
              r.settlement == onRejected.value.settlement && r.effects == p.effects + onRejected.value.effects
  {
    match p.settlement
    case Fulfilled => Call(onFulfilled.settlement, p.effects + onFulfilled.effects)
    case Rejected =>
      if onRejected.Some? then Call(onRejected.value.settlement, p.effects + onRejected.value.effects) else p
    case Pending => p
  }

  /** Q's `p.finally(cleanup)`: the cleanup runs once `p` has settled either
      way, and the promise keeps `p`'s settlement. */
  function Finally(p: Call, path: string): (r: Call)
    ensures r.settlement == p.settlement
    ensures p.settlement == Pending ==> r == p
    ensures p.settlement != Pending ==> r.effects == p.effects + [Unlinked(path)]
  {
    if p.settlement == Pending then p else Call(p.settlement, p.effects + [Unlinked(path)])
  }

  /** The handler that simply calls back, as at lines 124-126. */
  const CallBack: Call := Call(Fulfilled, [CallbackRun])

  /** index.js:115-126 as written: the arbiter's promise, then the handler at
      line 118 (upload, with the unlink attached to the upload's own promise at
      line 121), then the callback at line 124; no rejection handler anywhere.
      The upload goes through the test-run switch of line 137. */
  function ZipTailAsWritten(decision: Result<Decision, StatError>, testRun: bool, service: UploadResult): (es: seq<Effect>)
    ensures decision.Err? ==> es == []
    ensures decision.Ok? ==> |es| == 3 && es[0] == UploadIssued(decision.value.fileToUpload) && es[2] == CallbackRun
  {
    var handler :=
      if decision.Ok? then
        Finally(UploadAsWritten(decision.value.fileToUpload, UploadCall(testRun, service)), decision.value.zippedTmpFile)
      else Call(Pending, []);  // not called: the arbiter's promise is rejected
    Then(Then(ArbiterCall(decision), handler, None), CallBack, None).effects
  }

  /** The tail with the upload's promise rejected on failure, the unlink of the
      gzip output `tmp` attached to the whole chain, and a rejection handler
      that emits the error and calls back. */
  function ZipTail(decision: Result<Decision, StatError>, tmp: string, testRun: bool, service: UploadResult): (es: seq<Effect>)
    ensures |es| >= 3 && es[|es| - 1] == CallbackRun
  {
    var handler :=
      if decision.Ok? then UploadRejecting(decision.value.fileToUpload, UploadCall(testRun, service))
      else Call(Pending, []);  // not called: the arbiter's promise is rejected
    var uploaded := Then(ArbiterCall(decision), handler, None);
    Then(Finally(uploaded, tmp), CallBack, Some(Call(Fulfilled, [ErrorEmitted, CallbackRun]))).effects
  }

  /** The as-written tail's effects, spelled out: nothing on a stat failure;
      otherwise the upload, then the unlink or the error, then the callback. */
  lemma ZipTailAsWrittenEffects(decision: Result<Decision, StatError>, testRun: bool, service: UploadResult)
    ensures ZipTailAsWritten(decision, testRun, service)
            == if decision.Err? then []
               else [UploadIssued(decision.value.fileToUpload)]
                    + (if UploadCall(testRun, service) == Uploaded then [Unlinked(decision.value.zippedTmpFile)]
                       else [ErrorEmitted])
                    + [CallbackRun]
  {
    var arbiter := ArbiterCall(decision);
    if decision.Ok? {
      var d := decision.value;
      var up := UploadCall(testRun, service);
      var handler := Finally(UploadAsWritten(d.fileToUpload, up), d.zippedTmpFile);
      var uploaded := Then(arbiter, handler, None);
      if up == Uploaded {
        assert handler == Call(Fulfilled, [UploadIssued(d.fileToUpload), Unlinked(d.zippedTmpFile)]);
        assert uploaded == handler;
        assert Then(uploaded, CallBack, None).effects == handler.effects + [CallbackRun];
      } else {
        assert handler == Call(Pending, [UploadIssued(d.fileToUpload), ErrorEmitted, CallbackRun]);
        assert uploaded == handler;
      }
    } else {
      assert arbiter == Call(Rejected, []);
    }
  }

  /** As written: a stat failure does nothing at all (no callback, no unlink);
      otherwise the file is uploaded and the callback runs once, but the
      temporary file is removed only when the upload succeeds, and an error is
      emitted exactly when it fails. A test run never emits an upload error. */
  lemma ZipTailAsWrittenOutcome(decision: Result<Decision, StatError>, testRun: bool, service: UploadResult)
    ensures var es := ZipTailAsWritten(decision, testRun, service);
            var up := UploadCall(testRun, service);
            && (decision.Err? ==> es == [])
            && (decision.Ok? ==>
                  && multiset(es)[UploadIssued(decision.value.fileToUpload)] == 1
                  && multiset(es)[CallbackRun] == 1
                  && (Unlinked(decision.value.zippedTmpFile) in es <==> up == Uploaded)
                  && (ErrorEmitted in es <==> up == UploadFailed))
            && (testRun ==> ErrorEmitted !in es)
  {
    ZipTailAsWrittenEffects(decision, testRun, service);
    if decision.Ok? {
      CountsOfAsWrittenTail(ZipTailAsWritten(decision, testRun, service), decision.value.fileToUpload,
                            decision.value.zippedTmpFile, UploadCall(testRun, service) == Uploaded);
    }
  }

  /** Counting in the as-written tail's `[upload, unlink or error, callback]`. */
  lemma CountsOfAsWrittenTail(es: seq<Effect>, file: string, tmp: string, uploaded: bool)
    requires es == [UploadIssued(file)] + (if uploaded then [Unlinked(tmp)] else [ErrorEmitted]) + [CallbackRun]
    ensures multiset(es)[UploadIssued(file)] == 1 && multiset(es)[CallbackRun] == 1
    ensures Unlinked(tmp) in es <==> uploaded
    ensures ErrorEmitted in es <==> !uploaded
  {
    var middle := if uploaded then Unlinked(tmp) else ErrorEmitted;
    assert es == [UploadIssued(file), middle, CallbackRun];
    assert multiset(es) == multiset{UploadIssued(file)} + multiset{middle} + multiset{CallbackRun};
  }

  /** The corrected tail's effects, spelled out: the upload (when the stats
      succeeded), the unlink, then either the callback or the error and the
      callback. */
  lemma ZipTailEffects(decision: Result<Decision, StatError>, tmp: string, testRun: bool, service: UploadResult)
    ensures var up := UploadCall(testRun, service);
            ZipTail(decision, tmp, testRun, service)
            == (if decision.Ok? then [UploadIssued(decision.value.fileToUpload)] else [])
               + (if decision.Ok? && up == Uploaded then [Unlinked(tmp), CallbackRun]
                  else [Unlinked(tmp), ErrorEmitted, CallbackRun])
  {
    var up := UploadCall(testRun, service);
    var uploaded := Then(ArbiterCall(decision), if decision.Ok? then UploadRejecting(decision.value.fileToUpload, up)
                                                else Call(Pending, []), None);
    assert uploaded.settlement == Fulfilled <==> decision.Ok? && up == Uploaded;
  }

  /** Corrected: the gzip output is removed exactly once and the callback runs
      exactly once on every path; an error is emitted exactly when a stat or the
      upload failed; a test run only reports stat failures. */
  lemma ZipTailCleansUp(decision: Result<Decision, StatError>, tmp: string, testRun: bool, service: UploadResult)
    ensures var es := ZipTail(decision, tmp, testRun, service);
            var up := UploadCall(testRun, service);
            && multiset(es)[Unlinked(tmp)] == 1
            && multiset(es)[CallbackRun] == 1
            && (ErrorEmitted in es <==> decision.Err? || up == UploadFailed)
            && (decision.Ok? ==> multiset(es)[UploadIssued(decision.value.fileToUpload)] == 1)
            && (testRun ==> (ErrorEmitted in es <==> decision.Err?))
  {
    ZipTailEffects(decision, tmp, testRun, service);
    CountsOfCorrectedTail(ZipTail(decision, tmp, testRun, service),
                          if decision.Ok? then Some(decision.value.fileToUpload) else None, tmp,
                          !(decision.Ok? && UploadCall(testRun, service) == Uploaded));
  }

  /** Counting in the corrected tail's `[upload], unlink, [error], callback`. */
  lemma CountsOfCorrectedTail(es: seq<Effect>, upload: Option<string>, tmp: string, failed: bool)
    requires es == (if upload.Some? then [UploadIssued(upload.value)] else [])
                   + (if !failed then [Unlinked(tmp), CallbackRun] else [Unlinked(tmp), ErrorEmitted, CallbackRun])
    ensures multiset(es)[Unlinked(tmp)] == 1 && multiset(es)[CallbackRun] == 1
    ensures upload.Some? ==> multiset(es)[UploadIssued(upload.value)] == 1
    ensures ErrorEmitted in es <==> failed
  {
    var rest := if !failed then [Unlinked(tmp), CallbackRun] else [Unlinked(tmp), ErrorEmitted, CallbackRun];
    if upload.Some? {
      assert es == [UploadIssued(upload.value)] + rest;
      assert multiset(es) == multiset{UploadIssued(upload.value)} + multiset(rest);
    } else {
      assert es == rest;
    }
  }
}

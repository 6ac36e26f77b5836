# deploy-azure-cdn: the decision rules of the upload plugin

`index.js` is a gulp plugin that uploads every file of a stream into an Azure
blob container. Most of it is glue around the Azure SDK, `zlib`, `fs`,
`through2` and Q promises. This project models the rules inside that glue:

- **Options guard** (`Dispatch.Init`). With no options, the defaults apply. A
  missing or empty `containerName` throws before the blob service is created.
- **Per-file dispatch** (`Dispatch.Classify`, `Dispatch.PrepareFile`). A file
  whose base name starts with `_` is skipped before anything else is checked.
  A null file is passed through and a stream file is refused. Any other file
  is uploaded to `cwd + name`. Its metadata is a shallow copy of
  `options.metadata` plus `contentType`. `mime.lookup` is a function parameter.
  Node's POSIX `path.basename` is modelled in `Paths`.
- **Metadata clone** (`JsObjects.Clone`). This is the `for...in` loop over own
  properties, run on a small model of JavaScript objects (`JsObjects.Obj`).
  Property writes follow sloppy-mode rules: a TypeError on `null` and
  `undefined`, ignored on primitives. `Arbiter.PrepareCompressedUpload`
  proves that neither metadata write (`contentType`, then `contentEncoding`)
  changes the caller's `options.metadata`.
- **Size arbitration** (`Arbiter.Arbitrate`,
  `Arbiter.ChooseSmallerFileAndModifyContentType`). The original file is kept
  only when it is strictly smaller. Otherwise the gzip file is uploaded and
  the metadata object is changed in place to add `contentEncoding: 'gzip'`.
  The temporary file `source + '.zip'` is returned for cleanup either way.
  `fs.stat` results are inputs, and a missing one is a stat failure.
- **Preparation gate** (`Preparation`). Container creation is followed by
  `emptyTargetFolder`'s countdown. It is modelled twice:
  - as a transition function (`Step`, `Run`) over the callbacks the blob
    service delivers;
  - as the `DeletionGate` class, whose `count` and `resolved` fields the
    callbacks update. Each of its methods is proved to leave exactly the state
    `Step` gives.
- **Promise chaining** (`Chain`). This models what Q does with the arguments
  the transform passes to `preparation.then(...)`.

The code and the option comments disagree in two places. The model follows
the code:
- `deleteExistingBlobs` truthy means "do not prune" (index.js:59-60). The
  option comment at line 26 says the opposite.
- Compression is switched on by `options.zip` (line 113). The documented
  default at line 28 is spelled `gzip` and is never read.

In a test run, deletes and uploads are replaced by a no-op that always
reports success. The delete callback then logs `blob.url` from the listing, so
nothing crashes.

## Model

| member | source | states |
|---|---|---|
| `Dispatch.Init` | index.js:20-34 | Succeeds exactly when options were given and their container name is present and non-empty. With no options, the default name (null) always fails. On success the options are returned unchanged, so the blob service is only ever created from them. |
| `Paths.StripTrailingSlashes` | index.js:93 | Returns a prefix of the path that does not end in '/'. Every character it drops is '/'. |
| `Paths.LastSegment` | index.js:93 | Returns a suffix of the path with no '/'. That suffix is either the whole path or starts right after a '/'. |
| `Paths.BasenameOfChild` | index.js:93 | `basename(dir + "/" + name)` is `name` for any non-empty name without '/'. |
| `Paths.ExcludedChild` | index.js:93 | A file inside a directory is excluded exactly when its own name starts with '_'. |
| `Paths.TempName` | index.js:197 | The gzip output of `source` is `source` followed by ".zip". |
| `Paths.TempNameInjective` | index.js:197 | A temporary name never equals its source, and distinct sources get distinct temporary names. |
| `JsObjects.WithProperty` | index.js:112 | Writing a property fails exactly on null and undefined and leaves a primitive as it is. On an object it sets that key and keeps every other key and value. |
| `JsObjects.SetProperty` | index.js:169 | The in-place write on a real value gives the object exactly the contents `WithProperty` describes, and reports failure exactly where `WithProperty` does. |
| `JsObjects.Cloned` | index.js:206-213 | `clone` throws exactly for an object whose `constructor` (line 208) or `hasOwnProperty` (line 210) is one of its own or inherited string values. Otherwise it gives the same contents. |
| `JsObjects.Clone` | index.js:206-213 | Fails exactly where `Cloned` says `clone` throws. Otherwise it returns null, undefined and non-objects unchanged, and for an object a fresh object with the same own keys and values and nothing inherited. |
| `Paths.Basename` | index.js:93 | Node's POSIX `path.basename`: the result never contains '/', and it is empty exactly when the path is empty or made only of '/'. |
| `Paths.Excluded` | index.js:93 | A path is excluded only when it contains '_'. The empty path and paths made only of '/' are never excluded, because their base name is empty and `[0]` gives `undefined`. |
| `Dispatch.UploadMetadata` | index.js:111-112 | The `contentType` write on the cloned defaults: a TypeError for null or undefined defaults, no change for a primitive, and for an object its properties with `contentType` set. |
| `Dispatch.Classify` | index.js:93-113 | Skip exactly when the base name starts with '_', whatever the contents. Otherwise: pass-through exactly for null files, a stream error exactly for streams, a TypeError exactly for buffers whose default metadata `clone` cannot copy or that are null or undefined. An upload goes to `cwd + name` with the defaults plus `contentType = lookup(name)`. |
| `Dispatch.UnderscoreFileSkipped` | index.js:93-95 | Any file `dir/_name` is skipped, whatever its contents and the options. |
| `Dispatch.PrepareFile` | index.js:93-112 | The transform's clone-then-write steps produce the `Classify` action. The caller's `options.metadata` object is unchanged, and the uploaded metadata is a fresh object. |
| `Arbiter.Arbitrate` | index.js:161-175 | When the original is strictly smaller, the original is uploaded with the metadata as given. Otherwise, ties included, the gzip file is uploaded and `contentEncoding` is set to 'gzip'. The temporary file is returned in both cases. |
| `Arbiter.UploadsTheSmaller` | index.js:161-174 | The size sent is at most both sizes. The gzip file is chosen exactly when it is no larger than the original. |
| `Arbiter.GzipEncodingIffCompressedSent` | index.js:168-169 | For metadata without its own `contentEncoding`, `contentEncoding` is present exactly when the gzip file is sent, and its value is 'gzip'. |
| `Arbiter.Decide` | index.js:151-175 | Succeeds exactly when both stats succeed, and then with `Arbitrate` applied to the original's size and the gzip file's size. The gzip file is stat-ed first, and the first failing path is the one reported. |
| `Arbiter.ChooseSmallerFileAndModifyContentType` | index.js:149-180 | Resolves with the `Decide` result, and the metadata it returns is the same object it was given, now holding the decided metadata. Its inherited properties are never changed. On a stat failure that object is untouched. |
| `Arbiter.PrepareCompressedUpload` | index.js:109-116 | After the clone, the `contentType` write and the arbiter's `contentEncoding` write, the caller's `options.metadata` object is unchanged. With `zip` on, the result is `Decide` applied to `name + '.zip'`, `name` and the classified metadata. With `zip` off there is no arbiter result. |
| `Arbiter.UploadCall` | index.js:137 | In a test run the upload always succeeds. Otherwise it reports what the service reports. |
| `Arbiter.UploadAsWritten` | index.js:135-147 | `uploadFileToAzureCdn` as written: the upload call is issued once. On success it does nothing more and fulfils the promise. On failure it emits the error, then calls back, and leaves the promise pending. The promise is never rejected. |
| `Arbiter.UploadRejecting` | index.js:135-147 | The upload with `deferred.reject(err)` in place of lines 140-141: it only issues the upload, and is fulfilled on success and rejected on failure. |
| `Arbiter.ArbiterCall` | index.js:149-180 | The arbiter's promise is fulfilled when the decision succeeded and rejected on a stat failure, never left pending. It has no effects of its own. |
| `Arbiter.Then` | index.js:118-126 | Q's `then`: a fulfilled promise runs its fulfilment handler, and a rejected one its rejection handler when there is one. The chain then takes that handler's settlement, with the handler's effects after the promise's. A pending promise runs nothing, and a rejection with no handler passes through unchanged. |
| `Arbiter.Finally` | index.js:121-123 | Q's `finally`: once the promise has settled either way, exactly the unlink is appended to its effects and nothing else changes. A pending promise is returned unchanged, and the settlement is always kept. |
| `Arbiter.ZipTailAsWritten` | index.js:115-126 | The tail as written, composed from the arbiter's promise, `then`, the upload with its own `finally`, and the callback. A stat failure has no effect. Otherwise there are three effects, starting with the upload and ending with the callback. |
| `Arbiter.ZipTail` | index.js:115-126 | The corrected tail, composed the same way but with a rejecting upload, the `finally` on the whole chain and a rejection handler. It always ends with the callback, after at least two other effects. |
| `Arbiter.ZipTailAsWrittenOutcome` | index.js:115-146 | On the tail as written: a stat failure produces no effect at all, so no callback and no unlink. Otherwise the upload call is issued once (to the no-op in a test run) and the callback runs once. The temporary file is unlinked exactly when the upload succeeds, and an error is emitted exactly when it fails. A test run emits no upload error. |
| `Arbiter.ZipTailCleansUp` | index.js:115-146 | On the corrected tail (upload rejects on failure, `finally` on the whole chain, a rejection handler): the temporary file is unlinked exactly once and the callback runs exactly once on every path. An error is emitted exactly when a stat or the upload failed, and a test run reports only stat failures. |
| `Preparation.CreateContainer` | index.js:40-48 | Creation succeeds exactly when no error is reported. 'ContainerBeingDeleted' gets its own error, and any other code is thrown as it is. |
| `Preparation.Prepare` | index.js:87-88 | The gate starts, in the `Start` state, exactly when container creation reported no error. Otherwise the creation error is the result. |
| `Preparation.Step` | index.js:63-83 | One gate callback as written. A listing moves to `Listed`, and a list or delete error leaves the gate crashed with nothing else changed. A successful delete lowers the count by one and resolves the gate exactly when the count was 1 or it was already resolved. An empty listing has no fast path. |
| `Preparation.Start` | index.js:58-61 | The gate starts resolved exactly when `deleteExistingBlobs` is truthy. In that case no list or delete callback can ever arrive. |
| `Preparation.CountDown` | index.js:77-79 | While deletes are outstanding, callbacks only count down. After k successful callbacks the count has dropped by k, and the gate resolves on the callback that reaches zero. |
| `Preparation.GateResolvesAfterAllDeletes` | index.js:67-79 | After a listing of n blobs, the gate resolves after exactly n successful delete callbacks and not before, and only when n > 0. |
| `Preparation.EmptyListingNeverResolves` | index.js:67-79 | After an empty listing no callback can arrive and the gate stays unresolved. |
| `Preparation.InvPreserved` | index.js:57-86 | Every callback sequence the service can deliver preserves the gate invariant. A gate that started pruning never returns to the no-prune state. |
| `Preparation.ResolvedOnlyWhenPruned` | index.js:57-86 | On every callback sequence, including list and delete failures, the gate is resolved exactly when pruning is off, or when a non-empty listing has been counted down to zero. A thrown error leaves it unresolved. |
| `Preparation.FastPathResolvesAfterAllDeletes` | index.js:67-79 | With an explicit empty-listing fast path, the gate resolves after exactly n successful delete callbacks, including n = 0. |
| `Preparation.DeletionGate.constructor` | index.js:58-61 | The gate object starts in the `Start` state and satisfies the invariant. |
| `Preparation.DeletionGate.OnListBlobs` | index.js:63-71 | The listing callback leaves the `Step` state (count = number of blobs, or crashed on error). It issues one delete per listed blob, in listing order, to the no-op in a test run. |
| `Preparation.DeletionGate.OnDeleteOk` | index.js:76-79 | A successful delete callback leaves the `Step` state. The gate becomes resolved exactly when the count it decremented was 1, or it was already resolved. |
| `Preparation.DeletionGate.OnDeleteErr` | index.js:72-75 | A failed delete leaves the gate crashed and unresolved. |
| `Chain.Outcome` | index.js:197-200 | `gzipFile` settles with `source + '.zip'`, and the upload settles with `undefined` (line 144). |
| `Chain.Evaluate` | index.js:114 | Evaluating the argument of `then` starts work exactly when the argument is a call rather than a function. |
| `Chain.OnSettled` | index.js:114 | Once preparation settles, a function argument is called, which starts its work, and the chain continues with that work's outcome. Any other argument is ignored, and the chain continues with `undefined`. |
| `Chain.ThenAfterPreparation` | index.js:114 | The next handler receives the work's outcome exactly when a function was passed, and otherwise preparation's `undefined`, whenever the chain is built. The work starts before preparation settles exactly when a started promise was passed and the chain was built before preparation settled. |
| `Chain.ZipChainAsWritten` | index.js:114 | As written, evaluating the argument of `then` starts gzip on the source at once. |
| `Chain.ZipChain` | index.js:114 | With the gzip call wrapped in a function, evaluating the argument starts nothing, and the chain continues with `source + '.zip'` once preparation settles. |
| `Chain.UploadChainAsWritten` | index.js:128 | As written, evaluating the argument of `then` issues the upload at once. |
| `Chain.UploadChain` | index.js:128 | With the upload wrapped in a function, evaluating the argument starts nothing, and the upload starts once preparation settles. |
| `Chain.ZipChainLosesTempPath` | index.js:114-116 | As written, the arbiter's handler receives `undefined`, not the temporary file, whenever the chain is built. Gzip starts before preparation exactly when the chain is built before preparation settles. |
| `Chain.ZipChainDeliversTempPath` | index.js:114-116 | With a function passed, the handler receives `source + '.zip'` and gzip starts after preparation, whenever the chain is built. |
| `Chain.UploadIssuedBeforePreparation` | index.js:128 | As written, an uncompressed file's upload is issued before the container is created and pruned exactly when its chain is built before preparation settles. |
| `Chain.UploadAwaitsPreparation` | index.js:128 | With a function passed, the upload starts only after preparation has settled, whenever the chain is built. |

## Findings

| source | as written | input that shows it | evidently intended | confidence | as-written member | corrected member |
|---|---|---|---|---|---|---|
| index.js:67-79 | `count` starts at the number of blobs and only a delete callback can resolve the gate. | `deleteExistingBlobs` false and an empty listing: the gate never resolves. With `zip` on, the first compressed file's callback at line 126 never runs. With `zip` off, uploads are still issued at line 128, and a failed one calls back at line 141, so the stream stalls after the first upload that succeeds: its callback at line 130 never runs. | Resolve at once when there is nothing to delete. | high; not executed | `Preparation.EmptyListingNeverResolves` | `Preparation.FastPathResolvesAfterAllDeletes` |
| index.js:114-116 | `then` receives the promise returned by `gzipFile(sourceFile)`. Q ignores non-functions, so the next handler gets preparation's `undefined`. | `zip` on, any file: the arbiter stats `undefined` instead of `name.zip`. | `then(function () { return gzipFile(sourceFile); })` | high; not executed | `Chain.ZipChainLosesTempPath` | `Chain.ZipChainDeliversTempPath` |
| index.js:128 | `then` receives the promise of an upload that has already started. | `zip` off, the first uploadable file, or a file after one whose failed upload called back at line 141: its chain is built before preparation settles, so its upload is issued before the container exists or is pruned. | Upload only after preparation has settled. | high; not executed | `Chain.UploadIssuedBeforePreparation` | `Chain.UploadAwaitsPreparation` |
| index.js:115-126 | A failed upload calls back but never settles its promise, so the `finally` never unlinks. A failed stat rejects with no handler, so there is no callback and no unlink. | An upload error, or a stat error, with `zip` on. | Unlink the temporary file and call back once on every path. | high; not executed | `Arbiter.ZipTailAsWrittenOutcome` | `Arbiter.ZipTailCleansUp` |

The gate class and `Step` keep the code as written. The fast path is a
separate definition.

## Left out

- Arbiter.PrepareCompressedUpload: models line 114 with the chain corrected, so the arbiter receives `name + '.zip'`. As written, it receives `undefined` (see `Chain.ZipChainLosesTempPath`).
- Chain.ZipChainLosesTempPath: whether a file's chain is built before preparation settles is an input. The stream plumbing that decides it is not modelled: it is the first file, or a file after a callback that ran before preparation settled.
- Chain.UploadIssuedBeforePreparation: for the same reason, which files' chains are built before preparation settles is an input, not derived from the stream.
- JsObjects.Clone: function values are not modelled. `clone` returns a function-valued `options.metadata` unchanged, so the writes at lines 112 and 169 would land on the caller's own function object. For that input the isolation that `Dispatch.PrepareFile` and `Arbiter.PrepareCompressedUpload` prove does not hold in the source.
- Azure SDK calls (`createBlobService`, `createContainerIfNotExists`, `listBlobs`, `deleteBlob`, `createBlockBlobFromFile`) are a network client. Their results are inputs or gate events.
- `listBlobs` paging (continuation tokens) belongs to the SDK. A listing is one sequence of blobs.
- Gzip compression, file streams, `fs.stat` and `fs.unlinkSync` are file I/O. Sizes and stat failures are inputs, and removal is an `Unlinked` effect of the tail.
- A gzip stream error (lines 191-194) and an unhandled read-stream error are not modelled. The chain as written never consumes the gzip promise anyway.
- `through2`/gulp stream plumbing and Q scheduling are not modelled. Only the ordering and values of the two `then` calls are.
- In the uncompressed path, the callback can run both at line 141 and at line 130. That double callback is not modelled.
- `concurrentUploadThreads` is never read, so there is no concurrency bound to model.
- Logging (`gutil.log`, `console.log` at line 107) and the unused `prefixStream` (lines 14-18) are not modelled.
- The test-run no-op substitution is a boolean. It makes deletes (`Preparation.Enabled`) and uploads (`Arbiter.UploadCall`, used by both tails) always succeed.
- `serviceOptions` and `containerOptions` are only passed to the SDK and are not part of `Dispatch.Options`.
- JavaScript truthiness is reduced to booleans and optional strings. `options.cwd` and `file.name` are taken to be strings, so the model never produces `"undefined"` from string concatenation.
- Metadata property values are strings, so a `constructor` or `hasOwnProperty` key always makes `clone` throw (`JsObjects.Cloned`). `clone` is otherwise modelled for plain objects only: `obj.constructor()` on an array, a class instance or an object without a prototype is not modelled, nor the special `__proto__` key.
- `path.basename` is the POSIX variant. Windows separators are not modelled.
- The gate's callbacks arrive one at a time, and a delete callback does not say which blob it was for. The countdown only depends on how many callbacks arrive, so the order of concurrent deletes does not matter.

/** How the transform hooks each file onto `preparation` (index.js:114 and 128),
    under Q's rule for `promise.then(x)`: a function `x` is called with the
    promise's value once it settles and the chain continues with what `x`
    returns; anything else is ignored and the chain continues with the promise's
    own value. The argument expression itself is evaluated when the chain is
    built, before `preparation` has settled. The links after the first are
    modelled in Arbiter, by settlement and effects (`Arbiter.Then`). */
module Chain {

  import Paths

  /** The value a promise settles with. */
  datatype Val = Undefined | Path(path: string)

  /** Work the transform starts for a file. */
  datatype Work = Gzip(source: string) | UploadBlob(destKey: string, file: string)

  /** What each work's promise settles with: `gzipFile` resolves with its
      temporary file (lines 197, 200), the upload with nothing (line 144). */
  function Outcome(w: Work): (v: Val)
    ensures w.Gzip? ==> v == Path(Paths.TempName(w.source))
    ensures w.UploadBlob? ==> v == Undefined
  {
    match w
    case Gzip(source) => Path(Paths.TempName(source))
    case UploadBlob(_, _) => Undefined
  }

  /** The argument given to `preparation.then`: a function that starts the work
      when called, or the promise of work that was started while the argument
      was evaluated. */
  datatype Handler = Callback(work: Work) | StartedPromise(work: Work)

  /** Observable moments of one file's chain. */
  datatype Moment = WorkStarted(work: Work) | PreparationSettled | NextHandlerCalled(arg: Val)

  /** `a` happens strictly before `b` in `trace`. */
  predicate Before(trace: seq<Moment>, a: Moment, b: Moment)
  {
    exists i, j :: 0 <= i < j < |trace| && trace[i] == a && trace[j] == b
  }

  /** Evaluating the argument expression when the chain is built: a function
      expression starts nothing, a call such as `gzipFile(sourceFile)` starts
      its work there and then. */
  function Evaluate(h: Handler): (ms: seq<Moment>)
    ensures |ms| <= 1 && (ms != [] <==> h.StartedPromise?)
  {
    match h
    case Callback(_) => []
    case StartedPromise(w) => [WorkStarted(w)]
  }

  /** What `then` does once preparation has settled with `undefined`. */
  datatype Reaction = Reaction(started: seq<Moment>, next: Val)

  /** Q's rule: a function argument is called, which starts its work, and the
      chain continues with the work's outcome; any other argument is ignored and
      the chain continues with preparation's own `undefined`. */
  function OnSettled(h: Handler): (r: Reaction)
    ensures h.Callback? ==> r == Reaction([WorkStarted(h.work)], Outcome(h.work))
    ensures h.StartedPromise? ==> r == Reaction([], Undefined)
  {
    match h
    case Callback(w) => Reaction([WorkStarted(w)], Outcome(w))
    case StartedPromise(_) => Reaction([], Undefined)
  }

  /** `preparation.then(h).then(next)`, up to the call of `next`. The transform
      builds the chain when it runs for the file, which is before preparation
      settles when `builtBeforeSettled` and after it otherwise (Q calls a
      handler asynchronously even on a settled promise). */
  function ThenAfterPreparation(h: Handler, builtBeforeSettled: bool): (trace: seq<Moment>)
    ensures |trace| == 3 && trace[2] == NextHandlerCalled(if h.Callback? then Outcome(h.work) else Undefined)
    ensures Before(trace, PreparationSettled, WorkStarted(h.work)) <==> h.Callback? || !builtBeforeSettled
    ensures Before(trace, WorkStarted(h.work), PreparationSettled) <==> h.StartedPromise? && builtBeforeSettled
  {
    var r := OnSettled(h);
    var trace := (if builtBeforeSettled then Evaluate(h) else []) + [PreparationSettled]
                 + (if builtBeforeSettled then [] else Evaluate(h)) + r.started + [NextHandlerCalled(r.next)];
    if h.Callback? || !builtBeforeSettled then
      assert trace == [PreparationSettled, WorkStarted(h.work), NextHandlerCalled(r.next)];
      assert trace[0] == PreparationSettled && trace[1] == WorkStarted(h.work);
      trace
    else
      assert trace == [WorkStarted(h.work), PreparationSettled, NextHandlerCalled(r.next)];
      assert trace[0] == WorkStarted(h.work) && trace[1] == PreparationSettled;
      trace
  }

  /** index.js:114 as written: `gzipFile(sourceFile)` is called while the chain
      is built and its promise is what `then` receives. */
  function ZipChainAsWritten(source: string): (h: Handler)
    ensures Evaluate(h) == [WorkStarted(Gzip(source))]
  {
    StartedPromise(Gzip(source))
  }

  /** index.js:114 with the gzip wrapped in a function. */
  function ZipChain(source: string): (h: Handler)
    ensures Evaluate(h) == [] && OnSettled(h).next == Path(Paths.TempName(source))
  {
    Callback(Gzip(source))
  }

  /** As written, the handler at line 115 receives `undefined` instead of the
      temporary file, whenever the chain is built, so the arbiter is asked to
      stat `undefined`; gzip starts before preparation exactly when the chain
      is built before it settles. */
  lemma ZipChainLosesTempPath(source: string, builtBeforeSettled: bool)
    ensures ThenAfterPreparation(ZipChainAsWritten(source), builtBeforeSettled)[2] == NextHandlerCalled(Undefined)
    ensures builtBeforeSettled <==>
              Before(ThenAfterPreparation(ZipChainAsWritten(source), builtBeforeSettled),
                     WorkStarted(Gzip(source)), PreparationSettled)
  {
  }

  /** With the callback, the handler at line 115 receives `source + '.zip'` and
      gzip starts after preparation, whenever the chain is built. */
  lemma ZipChainDeliversTempPath(source: string, builtBeforeSettled: bool)
    ensures ThenAfterPreparation(ZipChain(source), builtBeforeSettled)[2]
            == NextHandlerCalled(Path(Paths.TempName(source)))
    ensures Before(ThenAfterPreparation(ZipChain(source), builtBeforeSettled),
                   PreparationSettled, WorkStarted(Gzip(source)))
  {
  }

  /** index.js:128 as written: `uploadFileToAzureCdn(...)` is called while the
      chain is built. */
  function UploadChainAsWritten(destKey: string, file: string): (h: Handler)
    ensures Evaluate(h) == [WorkStarted(UploadBlob(destKey, file))]
  {
    StartedPromise(UploadBlob(destKey, file))
  }

  /** index.js:128 with the upload wrapped in a function. */
  function UploadChain(destKey: string, file: string): (h: Handler)
    ensures Evaluate(h) == [] && OnSettled(h).started == [WorkStarted(UploadBlob(destKey, file))]
  {
    Callback(UploadBlob(destKey, file))
  }

  /** As written, the upload is issued before the container has been created
      and pruned exactly when the file's chain is built before preparation
      settles. */
  lemma UploadIssuedBeforePreparation(destKey: string, file: string, builtBeforeSettled: bool)
    ensures builtBeforeSettled <==>
              Before(ThenAfterPreparation(UploadChainAsWritten(destKey, file), builtBeforeSettled),
                     WorkStarted(UploadBlob(destKey, file)), PreparationSettled)
  {
  }

  /** With the callback, the upload is issued only once preparation has
      settled, whenever the chain is built. */
  lemma UploadAwaitsPreparation(destKey: string, file: string, builtBeforeSettled: bool)
    ensures Before(ThenAfterPreparation(UploadChain(destKey, file), builtBeforeSettled),
                   PreparationSettled, WorkStarted(UploadBlob(destKey, file)))
  {
  }
}

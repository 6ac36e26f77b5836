/** `emptyTargetFolder` (index.js:57-86): the gate that uploads wait on after
    the container exists. With `deleteExistingBlobs` truthy it resolves at once;
    otherwise it lists the blobs under `cwd`, deletes each, and counts the
    successful delete callbacks down to zero. */
module Preparation {

  import opened Wrappers

  datatype Blob = Blob(name: string, url: string)

  /** Why container creation throws (index.js:41-46). */
  datatype CreateError = ContainerBeingDeleted | CreateFailed(code: string)

  /** index.js:40-48: `createContainerIfNotExists` reports an error code or
      none. The code 'ContainerBeingDeleted' gets its own retry message; any
      other error is thrown as it is; no error resolves, and only then does
      `emptyTargetFolder` run (line 88). */
  function CreateContainer(err: Option<string>): (r: Result<(), CreateError>)
    ensures r.Ok? <==> err.None?
    ensures r == Err(ContainerBeingDeleted) <==> err == Some("ContainerBeingDeleted")
    ensures r.Err? && err.value != "ContainerBeingDeleted" ==> r.error == CreateFailed(err.value)
  {
    match err
    case None => Ok(())
    case Some(code) => if code == "ContainerBeingDeleted" then Err(ContainerBeingDeleted) else Err(CreateFailed(code))
  }

  /** Where the gate is: resolved without listing, waiting for the listing,
      waiting for delete callbacks, or stopped by a thrown error (lines 65, 74). */
  datatype Phase = NoPrune | Listing | Deleting | Crashed

  /** The gate's state: the listing's blobs, the countdown `count` (line 67) and
      whether the deferred has been resolved. */
  datatype Gate = Gate(phase: Phase, blobs: seq<Blob>, count: int, resolved: bool)

  /** index.js:87-88: `emptyTargetFolder` runs only once the container has been
      created; a creation error throws and no gate ever starts. */
  function Prepare(createErr: Option<string>, deleteExistingBlobs: bool): (r: Result<Gate, CreateError>)
    ensures r.Ok? <==> createErr.None?
    ensures r.Ok? ==> r.value == Start(deleteExistingBlobs)
    ensures r.Err? ==> r == Err(CreateContainer(createErr).error)
  {
    match CreateContainer(createErr)
    case Ok(_) => Ok(Start(deleteExistingBlobs))
    case Err(e) => Err(e)
  }

  /** The callbacks the blob service can deliver to the gate. */
  datatype Event = ListOk(listed: seq<Blob>) | ListErr | DeleteOk | DeleteErr

  /** index.js:58-61: the initial state. */
  function Start(deleteExistingBlobs: bool): (g: Gate)
    ensures g.resolved <==> deleteExistingBlobs
    ensures deleteExistingBlobs ==> forall e, testRun: bool :: !Enabled(g, e, testRun)
  {
    if deleteExistingBlobs then Gate(NoPrune, [], 0, true) else Gate(Listing, [], 0, false)
  }

  /** Which callbacks can arrive: the listing's once, while listing; a delete
      callback once per delete still outstanding. In a test run the delete is a
      no-op that always reports success (line 70). */
  predicate Enabled(g: Gate, e: Event, testRun: bool)
  {
    match e
    case ListOk(_) => g.phase == Listing
    case ListErr => g.phase == Listing
    case DeleteOk => g.phase == Deleting && g.count > 0
    case DeleteErr => g.phase == Deleting && g.count > 0 && !testRun
  }

  /** The state right after a successful listing (line 67): one delete per blob
      is outstanding and nothing is resolved yet. */
  function Listed(blobs: seq<Blob>): Gate
  {
    Gate(Deleting, blobs, |blobs|, false)
  }

  /** One callback. A successful delete runs `--count == 0` and resolves when the
      count reaches zero (lines 77-79); an error is thrown (lines 65, 74). */
  function Step(g: Gate, e: Event): (r: Gate)
    ensures e.ListOk? ==> r == Listed(e.listed)
    ensures e.ListErr? || e.DeleteErr? ==> r == g.(phase := Crashed)
    ensures e.DeleteOk? ==> && r.phase == g.phase && r.blobs == g.blobs && r.count == g.count - 1
                            && (r.resolved <==> g.resolved || g.count == 1)
  {
    match e
    case ListOk(blobs) => Listed(blobs)
    case ListErr => g.(phase := Crashed)
    case DeleteOk => g.(count := g.count - 1, resolved := if g.count - 1 == 0 then true else g.resolved)
    case DeleteErr => g.(phase := Crashed)
  }

  /** `es` is a sequence of callbacks that can arrive one after another from `g`. */
  predicate ValidTrace(g: Gate, es: seq<Event>, testRun: bool)
    decreases |es|
  {
    es == [] || (Enabled(g, es[0], testRun) && ValidTrace(Step(g, es[0]), es[1..], testRun))
  }

  function Run(g: Gate, es: seq<Event>): Gate
    decreases |es|
  {
    if es == [] then g else Run(Step(g, es[0]), es[1..])
  }

  /** While deletes are outstanding, successful callbacks only count down:
      after k of them the count has dropped by k, and the gate resolves on the
      one that brings it to zero. */
  lemma {:induction false} CountDown(g: Gate, es: seq<Event>, testRun: bool)
    requires g.phase == Deleting && g.count >= 0
    requires ValidTrace(g, es, testRun) && DeleteErr !in es
    ensures |es| <= g.count
    ensures forall i :: 0 <= i < |es| ==> es[i] == DeleteOk
    ensures Run(g, es) == g.(count := g.count - |es|, resolved := g.resolved || (|es| > 0 && |es| == g.count))
    decreases |es|
  {
    if es != [] {
      assert es[0] == DeleteOk;
      var h := Step(g, DeleteOk);
      assert DeleteErr !in es[1..] by {
        forall i | 0 <= i < |es[1..]| ensures es[1..][i] != DeleteErr {
          assert es[1..][i] == es[i + 1];
        }
      }
      CountDown(h, es[1..], testRun);
    }
  }

  /** index.js:67-79: once the listing has returned `blobs` and no delete has
      failed, the gate resolves after exactly `|blobs|` successful delete
      callbacks, and never earlier. An empty listing therefore never resolves. */
  lemma GateResolvesAfterAllDeletes(blobs: seq<Blob>, es: seq<Event>, testRun: bool)
    requires ValidTrace(Start(false), [ListOk(blobs)] + es, testRun) && DeleteErr !in es
    ensures |es| <= |blobs|
    ensures Run(Start(false), [ListOk(blobs)] + es).resolved <==> |es| == |blobs| && |blobs| > 0
  {
    var trace := [ListOk(blobs)] + es;
    assert trace[1..] == es;
    CountDown(Listed(blobs), es, testRun);
  }

  /** The empty listing: no delete is issued, so no callback can ever arrive and
      the gate stays unresolved forever. */
  lemma EmptyListingNeverResolves(es: seq<Event>, testRun: bool)
    requires ValidTrace(Start(false), [ListOk([])] + es, testRun)
    ensures es == []
    ensures !Run(Start(false), [ListOk([])]).resolved
  {
    var trace := [ListOk([])] + es;
    assert trace[1..] == es;
  }

  /** What holds in every state the gate can reach: it is resolved exactly when
      pruning was off, or when every listed blob has been deleted and there was
      at least one. */
  predicate Inv(g: Gate)
  {
    match g.phase
    case NoPrune => g.resolved
    case Listing => !g.resolved
    case Deleting => 0 <= g.count <= |g.blobs| && (g.resolved <==> g.count == 0 && |g.blobs| > 0)
    case Crashed => !g.resolved
  }

  lemma {:induction false} InvPreserved(g: Gate, es: seq<Event>, testRun: bool)
    requires Inv(g) && ValidTrace(g, es, testRun)
    ensures Inv(Run(g, es))
    ensures g.phase != NoPrune ==> Run(g, es).phase != NoPrune
    decreases |es|
  {
    if es != [] {
      InvPreserved(Step(g, es[0]), es[1..], testRun);
    }
  }

  /** Whatever callbacks arrive, including failures, the gate is resolved
      exactly when pruning is off or when it has counted a non-empty listing
      down to zero; a thrown list or delete error leaves it unresolved. */
  lemma ResolvedOnlyWhenPruned(deleteExistingBlobs: bool, es: seq<Event>, testRun: bool)
    requires ValidTrace(Start(deleteExistingBlobs), es, testRun)
    ensures var g := Run(Start(deleteExistingBlobs), es);
            && (g.resolved <==> deleteExistingBlobs || (g.phase == Deleting && g.count == 0 && |g.blobs| > 0))
            && (g.phase == Crashed ==> !g.resolved)
  {
    InvPreserved(Start(deleteExistingBlobs), es, testRun);
  }

  /** The state right after a successful listing, with an explicit fast path for
      the empty listing. */
  function ListedWithFastPath(blobs: seq<Blob>): Gate
  {
    Gate(Deleting, blobs, |blobs|, |blobs| == 0)
  }

  /** With the fast path the gate resolves after exactly `|blobs|` successful
      delete callbacks, including none for an empty listing. */
  lemma FastPathResolvesAfterAllDeletes(blobs: seq<Blob>, es: seq<Event>, testRun: bool)
    requires ValidTrace(ListedWithFastPath(blobs), es, testRun) && DeleteErr !in es
    ensures |es| <= |blobs|
    ensures Run(ListedWithFastPath(blobs), es).resolved <==> |es| == |blobs|
  {
    CountDown(ListedWithFastPath(blobs), es, testRun);
  }

  /** A delete the gate issues: to the blob service, or to the test-run no-op. */
  datatype DeleteCall = DeleteCall(container: string, blobName: string, noop: bool)

  /** The gate as the closure in `emptyTargetFolder` keeps it. Every method
      applies one callback and leaves exactly the state `Step` describes. */
  class DeletionGate {
    const containerName: string
    const testRun: bool
    var phase: Phase
    var blobs: seq<Blob>
    var count: int
    var resolved: bool

    function State(): Gate
      reads this
    {
      Gate(phase, blobs, count, resolved)
    }

    ghost predicate Valid()
      reads this
    {
      Inv(State())
    }

    /** index.js:58-61. */
    constructor (containerName: string, deleteExistingBlobs: bool, testRun: bool)
      ensures Valid() && State() == Start(deleteExistingBlobs)
      ensures this.containerName == containerName && this.testRun == testRun
    {
      this.containerName := containerName;
      this.testRun := testRun;
      phase := if deleteExistingBlobs then NoPrune else Listing;
      blobs := [];
      count := 0;
      resolved := deleteExistingBlobs;
    }

    /** index.js:63-83: the listing callback. On success `count` is set and one
        delete is issued per blob, in listing order (lines 67-71). */
    method OnListBlobs(listing: Option<seq<Blob>>) returns (calls: seq<DeleteCall>)
      requires Valid() && phase == Listing
      modifies this
      ensures Valid()
      ensures State() == Step(old(State()), if listing.Some? then ListOk(listing.value) else ListErr)
      ensures |calls| == (if listing.Some? then |listing.value| else 0)
      ensures forall i :: 0 <= i < |calls| ==>
                calls[i] == DeleteCall(containerName, listing.value[i].name, testRun)
    {
      calls := [];
      if listing.None? {
        phase := Crashed;
        return;
      }
      var listed := listing.value;
      phase, blobs, count := Deleting, listed, |listed|;
      var i := 0;
      while i < |listed|
        invariant 0 <= i <= |listed|
        invariant State() == Listed(listed)
        invariant |calls| == i
        invariant forall j :: 0 <= j < i ==> calls[j] == DeleteCall(containerName, listed[j].name, testRun)
      {
        calls := calls + [DeleteCall(containerName, listed[i].name, testRun)];
        i := i + 1;
      }
    }

    /** index.js:76-79: a successful delete callback. */
    method OnDeleteOk()
      requires Valid() && Enabled(State(), DeleteOk, testRun)
      modifies this
      ensures Valid()
      ensures State() == Step(old(State()), DeleteOk)
      ensures resolved <==> old(resolved) || old(count) == 1
    {
      count := count - 1;
      if count == 0 {
        resolved := true;
      }
    }

    /** index.js:72-75: a failed delete throws. */
    method OnDeleteErr()
      requires Valid() && Enabled(State(), DeleteErr, testRun)
      modifies this
      ensures Valid()
      ensures State() == Step(old(State()), DeleteErr)
      ensures !resolved
    {
      phase := Crashed;
    }
  }
}

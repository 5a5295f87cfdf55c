/**
 * The `Thumbnailer` object: its `_pending` dictionary and `_executor` handle,
 * updated in place by `generate`, `cancel`, `cancel_all` and by the
 * done-callback of each submitted job. Each method leaves the object in the
 * state the matching function of `Jobs` gives for the state before.
 */
module Thumbnailing {
  import opened ThumbnailCache
  import opened Preview
  import opened Jobs

  class Thumbnailer {
    /** `_pending`: uuid to future, row iterator and callback. */
    var pending: map<Uuid, Entry>
    /** `_executor`: the thread pool jobs are submitted to. */
    var executor: ExecutorId
    /** Every future submitted so far, with what its done-callback captured. */
    var jobs: seq<Job>
    /** The futures whose cancellation has been requested. */
    ghost var cancelRequested: set<FutureId>
    /** The executors shut down by `cancel_all`. */
    ghost var shutDown: set<ExecutorId>
    /** The callbacks invoked so far. */
    ghost var deliveries: seq<Delivery>

    ghost function Abs(): State
      reads this
    {
      State(pending, executor, jobs, cancelRequested, shutDown, deliveries)
    }

    ghost predicate Valid()
      reads this
    {
      Inv(Abs())
    }

    constructor ()
      ensures Valid() && Abs() == Initial()
    {
      pending := map[];
      executor := 0;
      jobs := [];
      cancelRequested := {};
      shutDown := {};
      deliveries := [];
    }

    /** Registers a preview job for `uuid` unless one is already pending,
        decoding the cached thumbnail when there is one. */
    method Generate(uuid: Uuid, iter: RowIter, imagePath: Path, callback: CallbackId, cache: Cache)
      requires Valid()
      modifies this
      ensures Valid()
      ensures Abs() == AfterGenerate(old(Abs()), uuid, iter, imagePath, callback, cache)
    {
      if uuid in pending {
        return;
      }
      var path := imagePath;
      var cached := CachedThumbnailPath(cache, imagePath);
      if cached.Some? && cached.value != "" {
        path := cached.value;
      }
      var future := |jobs|;
      jobs := jobs + [Job(uuid, iter, path, DEFAULT_SIZE, executor)];
      pending := pending[uuid := Entry(future, iter, callback)];
    }

    /** Requests cancellation of `uuid`'s future and drops its entry. */
    method Cancel(uuid: Uuid)
      requires Valid()
      modifies this
      ensures Valid()
      ensures Abs() == AfterCancel(old(Abs()), uuid)
    {
      if uuid !in pending {
        return;
      }
      cancelRequested := cancelRequested + {pending[uuid].future};
      pending := pending - {uuid};
    }

    /** Drops every entry, shuts the executor down without waiting and
        installs a new one. */
    method CancelAll()
      requires Valid()
      modifies this
      ensures Valid()
      ensures Abs() == AfterCancelAll(old(Abs()))
    {
      pending := map[];
      cancelRequested := cancelRequested + set f: FutureId | f < |jobs| && jobs[f].executor == executor;
      shutDown := shutDown + {executor};
      executor := executor + 1;
    }

    /** `_thumbnail_callback` of future `f`, run when it completes with `outcome`. */
    method Complete(f: FutureId, outcome: Outcome)
      requires Valid() && f < |jobs|
      modifies this
      ensures Valid()
      ensures Abs() == AfterCompletion(old(Abs()), f, outcome)
    {
      var uuid := jobs[f].uuid;
      var iter := jobs[f].iter;
      if uuid !in pending {
        return;
      }
      var shown: Shown;
      match outcome {
        case Success(pixbuf) =>
          shown := Thumbnail(pixbuf);
        case OSErr =>
          shown := ThumbnailBroken;
        case Cancelled =>
          return;
        case OtherErr =>
          return;
      }
      deliveries := deliveries + [Delivery(uuid, pending[uuid].future, pending[uuid].callback, iter, shown)];
      pending := pending - {uuid};
    }
  }

  /** `generate` followed at once by `cancel`: whatever the job's outcome, its
      completion invokes no callback and the table is as it was. */
  method GenerateThenCancel(t: Thumbnailer, uuid: Uuid, iter: RowIter, imagePath: Path, callback: CallbackId,
                            cache: Cache, outcome: Outcome)
    requires t.Valid() && uuid !in t.pending
    modifies t
    ensures t.Valid()
    ensures t.pending == old(t.pending) && t.deliveries == old(t.deliveries)
  {
    t.Generate(uuid, iter, imagePath, callback, cache);
    var f := |t.jobs| - 1;
    t.Cancel(uuid);
    t.Complete(f, outcome);
  }

  /** `cancel_all` while a job is pending: its later completion invokes nothing. */
  method CancelAllThenComplete(t: Thumbnailer, f: FutureId, outcome: Outcome)
    requires t.Valid() && f < |t.jobs|
    modifies t
    ensures t.Valid()
    ensures t.pending == map[] && t.deliveries == old(t.deliveries)
  {
    t.CancelAll();
    t.Complete(f, outcome);
  }
}

/**
 * The pending table of `Thumbnailer` as a value, and what each of its
 * operations does to it: `generate`, `cancel`, `cancel_all`, and the
 * completion of a submitted preview job (the nested `_thumbnail_callback`).
 *
 * Futures are numbered in submission order: future `f` is `jobs[f]`, which
 * records what its done-callback captured (the uuid, `iter_` and the path it
 * decodes) and the executor it was submitted to. Executors are numbered too;
 * `cancel_all` retires the current one and installs the next. Invoking a
 * stored callback appends a `Delivery` to `deliveries`.
 */
module Jobs {
  import opened Wrappers
  import opened ThumbnailCache
  import opened Pixbuf
  import opened Preview

  type Uuid = nat
  type RowIter = nat
  type CallbackId = nat
  type FutureId = nat
  type ExecutorId = nat

  /** A value of `_pending`: `{"future": ..., "iter": ..., "callback": ...}`. */
  datatype Entry = Entry(future: FutureId, iter: RowIter, callback: CallbackId)

  /** A submitted preview job, `preview_gdk_pixbuf_from_image(path, size)`,
      and what its done-callback captured. */
  datatype Job = Job(uuid: Uuid, iter: RowIter, path: Path, size: nat, executor: ExecutorId)

  /** The pixbuf handed to a callback: the preview, or `THUMBNAIL_BROKEN`. */
  datatype Shown = Thumbnail(pixbuf: Pixbuf) | ThumbnailBroken

  /** `callback(iter_, pixbuf)` invoked for the entry under `uuid`, the one
      registered by future `entry`. */
  datatype Delivery = Delivery(uuid: Uuid, entry: FutureId, callback: CallbackId, iter: RowIter, shown: Shown)

  datatype State = State(
    pending: map<Uuid, Entry>,
    executor: ExecutorId,
    jobs: seq<Job>,
    cancelRequested: set<FutureId>,
    shutDown: set<ExecutorId>,
    deliveries: seq<Delivery>)

  /** The entry under `u` was registered by the job it names, on the current executor. */
  predicate Registered(s: State, u: Uuid)
    requires u in s.pending
  {
    var e := s.pending[u];
    && e.future < |s.jobs|
    && s.jobs[e.future].uuid == u
    && s.jobs[e.future].iter == e.iter
    && s.jobs[e.future].executor == s.executor
  }

  /** The invariant every operation keeps: the current executor has not been
      shut down (and every retired one is older), and every pending entry was
      registered by its own job on the current executor. */
  predicate Inv(s: State) {
    && (forall e :: e in s.shutDown ==> e < s.executor)
    && (forall u :: u in s.pending ==> Registered(s, u))
  }

  /** `Thumbnailer()`: an empty table and a fresh executor. */
  function Initial(): (s: State)
    ensures Inv(s) && s.pending == map[] && s.jobs == [] && s.deliveries == []
  {
    State(map[], 0, [], {}, {}, [])
  }

  /** `generate(uuid, iter_, image_path, callback)`. */
  function AfterGenerate(s: State, uuid: Uuid, iter: RowIter, imagePath: Path, callback: CallbackId, cache: Cache): (r: State)
    ensures Inv(s) ==> Inv(r)
    ensures uuid in s.pending ==> r == s
    ensures uuid !in s.pending ==>
              && r.pending.Keys == s.pending.Keys + {uuid}
              && r.pending[uuid] == Entry(|s.jobs|, iter, callback)
              && (forall u :: u in s.pending ==> r.pending[u] == s.pending[u])
              && r.jobs == s.jobs + [Job(uuid, iter, EffectivePath(cache, imagePath), DEFAULT_SIZE, s.executor)]
    ensures r.deliveries == s.deliveries && r.executor == s.executor
    ensures r.cancelRequested == s.cancelRequested && r.shutDown == s.shutDown
  {
    if uuid in s.pending then s
    else
      var job := Job(uuid, iter, EffectivePath(cache, imagePath), DEFAULT_SIZE, s.executor);
      s.(pending := s.pending[uuid := Entry(|s.jobs|, iter, callback)], jobs := s.jobs + [job])
  }

  /** `cancel(uuid)`. */
  function AfterCancel(s: State, uuid: Uuid): (r: State)
    ensures Inv(s) ==> Inv(r)
    ensures uuid !in s.pending ==> r == s
    ensures r.pending.Keys == s.pending.Keys - {uuid}
    ensures forall u :: u in r.pending ==> r.pending[u] == s.pending[u]
    ensures uuid in s.pending ==> r.cancelRequested == s.cancelRequested + {s.pending[uuid].future}
    ensures r.deliveries == s.deliveries && r.jobs == s.jobs && r.executor == s.executor && r.shutDown == s.shutDown
  {
    if uuid !in s.pending then s
    else s.(pending := s.pending - {uuid}, cancelRequested := s.cancelRequested + {s.pending[uuid].future})
  }

  /** The futures submitted to executor `e`. */
  function SubmittedTo(s: State, e: ExecutorId): (fs: set<FutureId>)
    ensures forall f: FutureId :: f in fs <==> f < |s.jobs| && s.jobs[f].executor == e
  {
    set f: FutureId | f < |s.jobs| && s.jobs[f].executor == e
  }

  /** `cancel_all()`: empty the table, shut the executor down asking it to
      cancel its futures, and install a new executor. */
  function AfterCancelAll(s: State): (r: State)
    ensures Inv(s) ==> Inv(r)
    ensures r.pending == map[]
    ensures r.shutDown == s.shutDown + {s.executor} && r.executor != s.executor
    ensures Inv(s) ==> r.executor !in r.shutDown
    ensures r.cancelRequested == s.cancelRequested + SubmittedTo(s, s.executor)
    ensures r.deliveries == s.deliveries && r.jobs == s.jobs
  {
    s.(pending := map[],
       cancelRequested := s.cancelRequested + SubmittedTo(s, s.executor),
       shutDown := s.shutDown + {s.executor},
       executor := s.executor + 1)
  }

  /** What the done-callback hands to the stored callback for an outcome:
      the pixbuf, `THUMBNAIL_BROKEN` for an OSError, and nothing when
      `future.result()` raises CancelledError (the callback returns) or any
      other exception (it escapes the done-callback). */
  function ShownFor(outcome: Outcome): (r: Option<Shown>)
    ensures outcome.Success? <==> r.Some? && r.value.Thumbnail?
    ensures outcome.OSErr? <==> r == Some(ThumbnailBroken)
    ensures r.Some? && r.value.Thumbnail? ==> r.value.pixbuf == outcome.pixbuf
  {
    match outcome
    case Success(pixbuf) => Some(Thumbnail(pixbuf))
    case OSErr => Some(ThumbnailBroken)
    case Cancelled => None
    case OtherErr => None
  }

  /** Future `f` completes with `outcome` and runs `_thumbnail_callback`: if
      the uuid it captured is pending and the outcome is a pixbuf or an
      OSError, the callback stored under that uuid is invoked with the
      captured `iter_` and the entry is deleted. The membership test is by
      uuid only. */
  function AfterCompletion(s: State, f: FutureId, outcome: Outcome): (r: State)
    requires f < |s.jobs|
    ensures Inv(s) ==> Inv(r)
    ensures s.jobs[f].uuid !in s.pending ==> r == s
    ensures outcome.Cancelled? || outcome.OtherErr? ==> r == s
    ensures var u := s.jobs[f].uuid;
            u in s.pending && ShownFor(outcome).Some? ==>
              && r.deliveries == s.deliveries + [Delivery(u, s.pending[u].future, s.pending[u].callback, s.jobs[f].iter, ShownFor(outcome).value)]
              && r.pending.Keys == s.pending.Keys - {u}
              && (forall v :: v in r.pending ==> r.pending[v] == s.pending[v])
    ensures r.jobs == s.jobs && r.executor == s.executor
    ensures r.cancelRequested == s.cancelRequested && r.shutDown == s.shutDown
  {
    var job := s.jobs[f];
    if job.uuid !in s.pending then s
    else
      match ShownFor(outcome)
      case None => s
      case Some(shown) =>
        s.(deliveries := s.deliveries + [Delivery(job.uuid, s.pending[job.uuid].future, s.pending[job.uuid].callback, job.iter, shown)],
           pending := s.pending - {job.uuid})
  }

  /** A call the UI or an executor thread makes on the thumbnailer. */
  datatype Call =
    | Generate(uuid: Uuid, iter: RowIter, imagePath: Path, callback: CallbackId, cache: Cache)
    | Cancel(uuid: Uuid)
    | CancelAll
    | Complete(future: FutureId, outcome: Outcome)

  /** One call; only a submitted future can complete. */
  function Step(s: State, c: Call): State {
    match c
    case Generate(uuid, iter, imagePath, callback, cache) => AfterGenerate(s, uuid, iter, imagePath, callback, cache)
    case Cancel(uuid) => AfterCancel(s, uuid)
    case CancelAll => AfterCancelAll(s)
    case Complete(f, outcome) => if f < |s.jobs| then AfterCompletion(s, f, outcome) else s
  }

  /** The calls one after the other. */
  function Run(s: State, calls: seq<Call>): State
    decreases |calls|
  {
    if calls == [] then s else Run(Step(s, calls[0]), calls[1..])
  }

  /** The uuids that `calls` submit. */
  function GeneratedUuids(calls: seq<Call>): set<Uuid>
    decreases |calls|
  {
    if calls == [] then {}
    else (if calls[0].Generate? then {calls[0].uuid} else {}) + GeneratedUuids(calls[1..])
  }

  /** One call never rewrites past deliveries; a delivery it adds is for a
      uuid that was pending, and a uuid it makes pending is one it submits. */
  lemma StepDeliversForPending(s: State, c: Call)
    ensures s.deliveries <= Step(s, c).deliveries
    ensures forall i :: |s.deliveries| <= i < |Step(s, c).deliveries| ==> Step(s, c).deliveries[i].uuid in s.pending
    ensures forall u :: u in Step(s, c).pending ==> u in s.pending || (c.Generate? && c.uuid == u)
  {
  }

  /** Deliveries are never withdrawn, and every callback invoked during a run
      of calls belongs to a uuid that was pending when the run started or
      that the run submitted. */
  lemma {:induction false} DeliveriesNeedPendingOrSubmitted(s: State, calls: seq<Call>)
    ensures s.deliveries <= Run(s, calls).deliveries
    ensures forall i :: |s.deliveries| <= i < |Run(s, calls).deliveries| ==>
              Run(s, calls).deliveries[i].uuid in s.pending.Keys + GeneratedUuids(calls)
    decreases |calls|
  {
    if calls != [] {
      var s1 := Step(s, calls[0]);
      StepDeliversForPending(s, calls[0]);
      DeliveriesNeedPendingOrSubmitted(s1, calls[1..]);
      var r := Run(s, calls);
      assert r == Run(s1, calls[1..]);
      forall i | |s.deliveries| <= i < |r.deliveries|
        ensures r.deliveries[i].uuid in s.pending.Keys + GeneratedUuids(calls)
      {
        if i < |s1.deliveries| {
          assert r.deliveries[i] == s1.deliveries[i];
        }
      }
    }
  }

  /** After `cancel(uuid)`, no callback fires for `uuid` until it is submitted again. */
  lemma CancelSilencesUntilResubmitted(s: State, uuid: Uuid, calls: seq<Call>)
    requires uuid !in GeneratedUuids(calls)
    ensures var r := Run(AfterCancel(s, uuid), calls);
            forall i :: |s.deliveries| <= i < |r.deliveries| ==> r.deliveries[i].uuid != uuid
  {
    DeliveriesNeedPendingOrSubmitted(AfterCancel(s, uuid), calls);
  }

  /** After `cancel_all()`, only uuids submitted again afterwards receive
      callbacks. A job still running on the retired executor may be the one
      that delivers to such a uuid (`StaleCompletionAfterCancelAll`). */
  lemma CancelAllSilencesEarlierJobs(s: State, calls: seq<Call>)
    ensures var r := Run(AfterCancelAll(s), calls);
            forall i :: |s.deliveries| <= i < |r.deliveries| ==> r.deliveries[i].uuid in GeneratedUuids(calls)
  {
    DeliveriesNeedPendingOrSubmitted(AfterCancelAll(s), calls);
  }

  /** The deliveries from index `from` on each name a different entry, and
      each names a submitted future that no pending entry holds any more. */
  predicate DeliveredOnce(s: State, from: nat) {
    && (forall i :: from <= i < |s.deliveries| ==>
          && s.deliveries[i].entry < |s.jobs|
          && forall u :: u in s.pending ==> s.pending[u].future != s.deliveries[i].entry)
    && (forall i, j :: from <= i < j < |s.deliveries| ==> s.deliveries[i].entry != s.deliveries[j].entry)
  }

  /** One call keeps the invariant and `DeliveredOnce`: a new entry takes a
      future never submitted before, and a delivery removes its entry. */
  lemma StepDeliversOnce(s: State, c: Call, from: nat)
    requires Inv(s) && from <= |s.deliveries| && DeliveredOnce(s, from)
    ensures Inv(Step(s, c)) && from <= |Step(s, c).deliveries| && DeliveredOnce(Step(s, c), from)
  {
    var r := Step(s, c);
    if c.Complete? && c.future < |s.jobs| {
      var u := s.jobs[c.future].uuid;
      if u in s.pending && |r.deliveries| > |s.deliveries| {
        var e := s.pending[u].future;
        assert r.deliveries[|s.deliveries|].entry == e;
        forall v | v in r.pending
          ensures r.pending[v].future != e
        {
          assert Registered(s, v) && Registered(s, u);
        }
      }
    }
  }

  /** A callback fires at most once per accepted request: over any run of
      calls, no two deliveries come from the same registered entry. */
  lemma {:induction false} EachEntryDeliversAtMostOnce(s: State, calls: seq<Call>, from: nat)
    requires Inv(s) && from <= |s.deliveries| && DeliveredOnce(s, from)
    ensures var r := Run(s, calls);
            forall i, j :: from <= i < j < |r.deliveries| ==> r.deliveries[i].entry != r.deliveries[j].entry
    decreases |calls|
  {
    if calls != [] {
      assert Run(s, calls) == Run(Step(s, calls[0]), calls[1..]);
      StepDeliversOnce(s, calls[0], from);
      EachEntryDeliversAtMostOnce(Step(s, calls[0]), calls[1..], from);
    }
  }

  /** From any reachable state, the callbacks invoked by a run of calls come
      from pairwise different entries. */
  lemma RunDeliversEachEntryAtMostOnce(s: State, calls: seq<Call>)
    requires Inv(s)
    ensures var r := Run(s, calls);
            forall i, j :: |s.deliveries| <= i < j < |r.deliveries| ==> r.deliveries[i].entry != r.deliveries[j].entry
  {
    EachEntryDeliversAtMostOnce(s, calls, |s.deliveries|);
  }

  /** `generate` then `cancel` on a uuid that was not pending restores the
      table, and no callback fires for it until it is submitted again,
      however its job completes. */
  lemma GenerateThenCancelIsSilent(s: State, uuid: Uuid, iter: RowIter, imagePath: Path, callback: CallbackId, cache: Cache, calls: seq<Call>)
    requires uuid !in s.pending && uuid !in GeneratedUuids(calls)
    ensures AfterCancel(AfterGenerate(s, uuid, iter, imagePath, callback, cache), uuid).pending == s.pending
    ensures |s.jobs| in AfterCancel(AfterGenerate(s, uuid, iter, imagePath, callback, cache), uuid).cancelRequested
    ensures var r := Run(AfterCancel(AfterGenerate(s, uuid, iter, imagePath, callback, cache), uuid), calls);
            forall i :: |s.deliveries| <= i < |r.deliveries| ==> r.deliveries[i].uuid != uuid
  {
    var g := AfterGenerate(s, uuid, iter, imagePath, callback, cache);
    CancelSilencesUntilResubmitted(g, uuid, calls);
  }

  /** Submitting a uuid twice in a row submits one job: the second call is a no-op. */
  lemma GenerateTwiceSubmitsOnce(s: State, uuid: Uuid, iter1: RowIter, path1: Path, callback1: CallbackId,
                                 iter2: RowIter, path2: Path, callback2: CallbackId, cache: Cache)
    ensures var once := AfterGenerate(s, uuid, iter1, path1, callback1, cache);
            AfterGenerate(once, uuid, iter2, path2, callback2, cache) == once
    ensures uuid !in s.pending ==> |AfterGenerate(s, uuid, iter1, path1, callback1, cache).jobs| == |s.jobs| + 1
  {
  }

  /** The race the uuid-only membership test leaves open: a job cancelled
      while running completes after the same uuid was submitted again; its
      done-callback finds the uuid pending, invokes the NEW entry's callback
      with the OLD `iter_` and the old job's pixbuf, and deletes the new entry,
      so the new job's own completion is then ignored. */
  lemma StaleCompletionReachesResubmittedEntry(s: State, uuid: Uuid, cache: Cache,
                                               iter1: RowIter, path1: Path, callback1: CallbackId,
                                               iter2: RowIter, path2: Path, callback2: CallbackId,
                                               stale: Pixbuf, current: Outcome)
    requires Inv(s) && uuid !in s.pending
    ensures var s1 := AfterGenerate(s, uuid, iter1, path1, callback1, cache);
            var s2 := AfterCancel(s1, uuid);
            var s3 := AfterGenerate(s2, uuid, iter2, path2, callback2, cache);
            var s4 := AfterCompletion(s3, |s.jobs|, Success(stale));
            var s5 := AfterCompletion(s4, |s.jobs| + 1, current);
            && s4.deliveries == s.deliveries + [Delivery(uuid, |s.jobs| + 1, callback2, iter1, Thumbnail(stale))]
            && uuid !in s4.pending
            && s5 == s4
  {
  }

  /** The completion step as evidently intended: the done-callback delivers
      only when the entry under its uuid is the one its own future registered. */
  function AfterOwnCompletion(s: State, f: FutureId, outcome: Outcome): (r: State)
    requires f < |s.jobs|
    ensures Inv(s) ==> Inv(r)
    ensures var u := s.jobs[f].uuid;
            !(u in s.pending && s.pending[u].future == f) ==> r == s
    ensures r.jobs == s.jobs && r.executor == s.executor
  {
    var u := s.jobs[f].uuid;
    if u in s.pending && s.pending[u].future == f then AfterCompletion(s, f, outcome) else s
  }

  /** With the intended step every callback receives the `iter_` it was
      registered with, and a completion only removes its own entry. */
  lemma OwnCompletionDeliversRegisteredRow(s: State, f: FutureId, outcome: Outcome)
    requires Inv(s) && f < |s.jobs|
    ensures var r := AfterOwnCompletion(s, f, outcome);
            var u := s.jobs[f].uuid;
            && (r.deliveries == s.deliveries ||
                (u in s.pending && r.deliveries == s.deliveries + [Delivery(u, f, s.pending[u].callback, s.pending[u].iter, ShownFor(outcome).value)]))
            && (forall v :: v in s.pending && v !in r.pending ==> v == u && s.pending[v].future == f)
  {
  }

  /** With the intended step the race above is closed: the stale completion
      invokes nothing and leaves the new entry, whose own completion then
      delivers the new `iter_` to the new callback. */
  lemma OwnCompletionIgnoresStaleJob(s: State, uuid: Uuid, cache: Cache,
                                     iter1: RowIter, path1: Path, callback1: CallbackId,
                                     iter2: RowIter, path2: Path, callback2: CallbackId,
                                     stale: Pixbuf, current: Pixbuf)
    requires Inv(s) && uuid !in s.pending
    ensures var s1 := AfterGenerate(s, uuid, iter1, path1, callback1, cache);
            var s2 := AfterCancel(s1, uuid);
            var s3 := AfterGenerate(s2, uuid, iter2, path2, callback2, cache);
            var s4 := AfterOwnCompletion(s3, |s.jobs|, Success(stale));
            var s5 := AfterOwnCompletion(s4, |s.jobs| + 1, Success(current));
            && s4 == s3
            && s5.deliveries == s.deliveries + [Delivery(uuid, |s.jobs| + 1, callback2, iter2, Thumbnail(current))]
  {
  }

  /** The same race through `cancel_all()`: shutting the executor down does
      not stop a job already running on it. If its uuid is submitted again,
      its completion passes the uuid-only test, invokes the NEW callback with
      the OLD `iter_`, and deletes the new entry. */
  lemma StaleCompletionAfterCancelAll(s: State, uuid: Uuid, cache: Cache,
                                      iter1: RowIter, path1: Path, callback1: CallbackId,
                                      iter2: RowIter, path2: Path, callback2: CallbackId,
                                      stale: Pixbuf)
    requires Inv(s) && uuid !in s.pending
    ensures var s1 := AfterGenerate(s, uuid, iter1, path1, callback1, cache);
            var s2 := AfterCancelAll(s1);
            var s3 := AfterGenerate(s2, uuid, iter2, path2, callback2, cache);
            var s4 := AfterCompletion(s3, |s.jobs|, Success(stale));
            && s3.jobs[|s.jobs|].executor in s3.shutDown
            && s4.deliveries == s.deliveries + [Delivery(uuid, |s.jobs| + 1, callback2, iter1, Thumbnail(stale))]
            && uuid !in s4.pending
  {
  }

  /** With the intended step, a job submitted before `cancel_all()` never
      delivers: no pending entry was registered on a retired executor. */
  lemma OwnCompletionIgnoresRetiredExecutor(s: State, f: FutureId, outcome: Outcome)
    requires Inv(s) && f < |s.jobs| && s.jobs[f].executor in s.shutDown
    ensures AfterOwnCompletion(s, f, outcome) == s
  {
  }

  /** What the done-callback hands on as the placeholder design means it:
      every exception except CancelledError, whether or not it is an OSError,
      becomes `THUMBNAIL_BROKEN`. It agrees with `ShownFor` wherever that
      hands something on. */
  function ShownForIntended(outcome: Outcome): (r: Option<Shown>)
    ensures outcome.Cancelled? <==> r.None?
    ensures outcome.Success? ==> r == Some(Thumbnail(outcome.pixbuf))
    ensures outcome.OSErr? || outcome.OtherErr? ==> r == Some(ThumbnailBroken)
    ensures ShownFor(outcome).Some? ==> r == ShownFor(outcome)
  {
    match outcome
    case Cancelled => None
    case Success(pixbuf) => Some(Thumbnail(pixbuf))
    case _ => Some(ThumbnailBroken)
  }

  /** The completion step with the placeholder for every failure; the
      membership test is the code's, by uuid. */
  function AfterIntendedCompletion(s: State, f: FutureId, outcome: Outcome): (r: State)
    requires f < |s.jobs|
    ensures Inv(s) ==> Inv(r)
    ensures s.jobs[f].uuid !in s.pending || outcome.Cancelled? ==> r == s
    ensures r.jobs == s.jobs && r.executor == s.executor
    ensures r.cancelRequested == s.cancelRequested && r.shutDown == s.shutDown
  {
    var u := s.jobs[f].uuid;
    if u !in s.pending then s
    else
      match ShownForIntended(outcome)
      case None => s
      case Some(shown) =>
        s.(deliveries := s.deliveries + [Delivery(u, s.pending[u].future, s.pending[u].callback, s.jobs[f].iter, shown)],
           pending := s.pending - {u})
  }

  /** As written, a job whose file cannot be opened raises a non-OSError
      (`pixbuf` is unbound: `OtherErr` from `PreviewGdkPixbufFromImage`), so
      its completion invokes nothing and leaves the entry. A `generate` for
      that uuid is then a no-op until `cancel(uuid)` or `cancel_all()`
      removes the entry; after that it submits a new job. */
  lemma FailedOpenBlocksResubmission(s: State, f: FutureId, iter: RowIter, imagePath: Path, callback: CallbackId, cache: Cache)
    requires f < |s.jobs| && s.jobs[f].uuid in s.pending
    ensures var r := AfterCompletion(s, f, OtherErr);
            && s.jobs[f].uuid in r.pending
            && r.deliveries == s.deliveries
            && AfterGenerate(r, s.jobs[f].uuid, iter, imagePath, callback, cache) == r
            && |AfterGenerate(AfterCancel(r, s.jobs[f].uuid), s.jobs[f].uuid, iter, imagePath, callback, cache).jobs| == |s.jobs| + 1
            && |AfterGenerate(AfterCancelAll(r), s.jobs[f].uuid, iter, imagePath, callback, cache).jobs| == |s.jobs| + 1
  {
  }

  /** With the placeholder for every failure, each completion of a job whose
      uuid is pending, unless cancelled, invokes the stored callback once and
      removes the entry: the uuid goes from pending to delivered, and the
      next `generate` for it submits a new job. */
  lemma IntendedCompletionAlwaysDelivers(s: State, f: FutureId, outcome: Outcome, iter: RowIter, imagePath: Path, callback: CallbackId, cache: Cache)
    requires f < |s.jobs| && s.jobs[f].uuid in s.pending && !outcome.Cancelled?
    ensures var u := s.jobs[f].uuid;
            var r := AfterIntendedCompletion(s, f, outcome);
            && u !in r.pending
            && r.pending.Keys == s.pending.Keys - {u}
            && r.deliveries == s.deliveries + [Delivery(u, s.pending[u].future, s.pending[u].callback, s.jobs[f].iter,
                                                        if outcome.Success? then Thumbnail(outcome.pixbuf) else ThumbnailBroken)]
            && |AfterGenerate(r, u, iter, imagePath, callback, cache).jobs| == |s.jobs| + 1
  {
  }
}

# Thumbnailer of yoga-image-optimizer, modelled in Dafny

yoga-image-optimizer shows a small preview of every image in its list. The
`Thumbnailer` in `yoga_image_optimizer/thumbnailer.py` makes these previews
on a pool of two worker threads. It keeps a pending table from a row's uuid
to the job's future, the row iterator and the callback. It uses a thumbnail
the desktop already cached when there is one. It turns JPEG previews upright
according to their EXIF orientation. It hands the resulting GdkPixbuf, or
the `THUMBNAIL_BROKEN` image, to the row's callback.

The model has these parts:

- `Raster`: RGBA images as grids, and PIL's five transposes as functions.
- `Orientation`: the orientation table, which sources it applies to, and
  the transposes applied in order. The table is checked against the meaning
  of the TIFF 6.0 Orientation field (tag 274, section 8 of TIFF 6.0), which
  Exif reuses.
- `Pixbuf`: the bytes `tobytes()` produces and the pixbuf built from them.
- `Preview`: `preview_gdk_pixbuf_from_image`, including the loop that applies
  the transposes.
- `ThumbnailCache`: the choice between the "normal" and "large" cached
  thumbnails.
- `Jobs`: the thumbnailer's state as a value, one function per operation,
  and lemmas about runs of calls.
- `Thumbnailing`: the `Thumbnailer` class. Its fields are updated in place,
  and each method is proved to move the object to the state the matching
  `Jobs` function gives.

A future is named by its submission number. Job `f` records what the future's
done-callback captured: the uuid, `iter_` and the decoded path. A completion
is an explicit call `Complete(f, outcome)`. The outcome is what
`future.result()` gives: a pixbuf, an `OSError`, a `CancelledError` or any
other exception. Invoking a stored callback appends a record to a log of
deliveries.

Where the code does not do what the thumbnailer is meant to guarantee, the model follows the code:

- The done-callback tests membership by uuid only (line 121). A job that
  completes after its uuid was cancelled and submitted again reaches the new
  entry; see Findings.
- When opening the image fails, the error is printed and `return pixbuf`
  (line 83) raises UnboundLocalError. The done-callback catches only OSError
  and CancelledError, so no callback fires and the entry stays. Every later
  `generate` for that uuid is then a no-op until `cancel(uuid)` or
  `cancel_all()` removes the entry. An exception other than OSError raised
  after opening (from `paste` or `getexif()`, say) has the same effect. A broken file is meant to yield
  the placeholder; in the code only an OSError raised after opening does. See Findings.
- The entry is registered (line 142) after the job is submitted and its
  done-callback attached (lines 137-140). The model treats `generate` as one
  step. It does not claim that every entry is eventually removed.

## Model

| member | source | states |
|---|---|---|
| `Raster.Transposed` | yoga_image_optimizer/thumbnailer.py:63-64 | a quarter turn swaps width and height; the flips and the half turn keep the size |
| `Raster.TransposeUndone` | yoga_image_optimizer/thumbnailer.py:31-37 | each transpose used by the table is undone by its inverse (flips and half turn by themselves, ROTATE_90 and ROTATE_270 by each other) |
| `Orientation.OperationsFor` | yoga_image_optimizer/thumbnailer.py:56-62 | transposes are applied only to a JPEG whose Exif has tag 274 with a value from 2 to 8; a known value selects exactly that value's table entry, and value 1 and every other case give none |
| `Orientation.OrientedSize` | yoga_image_optimizer/thumbnailer.py:63-64 | applying the transposes in order keeps the size after an even number of quarter turns and swaps width and height otherwise |
| `Orientation.OrientationSize` | yoga_image_optimizer/thumbnailer.py:29-38 | orientation values 5 to 8 swap width and height; values 1 to 4 keep them |
| `Orientation.OperationsMakeUpright` | yoga_image_optimizer/thumbnailer.py:28-38 | for every value 1 to 8, the table's transposes, applied in order, give the upright picture that TIFF 6.0 describes by where the stored 0th row and 0th column lie |
| `Orientation.OrientedFits` | yoga_image_optimizer/thumbnailer.py:53-64 | an image that fits in `size × size` after the thumbnail step still fits after the orientation step |
| `Pixbuf.GridBytes` | yoga_image_optimizer/thumbnailer.py:68 | `tobytes()` of an RGBA image takes one row stride (four bytes per pixel) for each row |
| `Pixbuf.FromImage` | yoga_image_optimizer/thumbnailer.py:67-74 | the pixbuf is RGB with alpha at 8 bits per sample, has the image's width and height, a row stride of four times the width, and exactly stride times height bytes |
| `Pixbuf.PixbufShowsImage` | yoga_image_optimizer/thumbnailer.py:67-74 | every pixel GdkPixbuf reads at offset `y * rowstride + 4 * x` is the image's pixel at column x of row y |
| `Preview.PreviewGdkPixbufFromImage` | yoga_image_optimizer/thumbnailer.py:20-83 | an unopenable file raises a non-OSError (unbound `pixbuf`); a failure after opening raises the OSError or other exception PIL raised; a readable image gives the pixbuf of the scaled image turned upright by its transposes, applied in order; every pixbuf has rowstride `4 * width`, alpha and 8 bits per sample, and fits in `size × size` when the thumbnail step's result does |
| `ThumbnailCache.CachedThumbnailPath` | yoga_image_optimizer/thumbnailer.py:86-99 | the normal-tier path whenever it is a file; the large-tier path only when normal is not a file and large is; None exactly when neither is a file; any path returned is a file |
| `ThumbnailCache.EffectivePath` | yoga_image_optimizer/thumbnailer.py:115-117 | the job decodes the normal-tier thumbnail when it is a file with a non-empty path, else the large-tier thumbnail when that is a file with a non-empty path, and the image itself when no tier is a file; any other path it gives is a file |
| `Jobs.Initial` | yoga_image_optimizer/thumbnailer.py:105-108 | a new thumbnailer has an empty table, has submitted nothing and satisfies the invariant |
| `Jobs.AfterGenerate` | yoga_image_optimizer/thumbnailer.py:110-146 | on a pending uuid nothing changes (table and executor); on a new uuid exactly one entry is added, holding the new future, `iter_` and callback, every other entry is untouched, and one job is submitted on the current executor with the effective path; the invariant is kept |
| `Jobs.AfterCancel` | yoga_image_optimizer/thumbnailer.py:148-152 | an absent uuid changes nothing; a present one loses its entry only, the others are untouched, and cancellation of its future is requested; the invariant is kept |
| `Jobs.AfterCancelAll` | yoga_image_optimizer/thumbnailer.py:154-157 | the table is empty, the old executor is added to the shut-down ones with its futures asked to cancel, and a different executor is installed; the invariant is kept |
| `Jobs.ShownFor` | yoga_image_optimizer/thumbnailer.py:124-133 | a pixbuf result is handed on as is, an OSError becomes `THUMBNAIL_BROKEN`, and a CancelledError or any other exception hands nothing on |
| `Jobs.AfterCompletion` | yoga_image_optimizer/thumbnailer.py:119-135 | a completion whose uuid is absent, or whose outcome is a CancelledError or another non-OSError exception, changes nothing; otherwise the callback stored under the uuid is invoked once with the captured `iter_` and the pixbuf or `THUMBNAIL_BROKEN`, the delivery names the entry's future, and that entry alone is removed |
| `Jobs.DeliveriesNeedPendingOrSubmitted` | yoga_image_optimizer/thumbnailer.py:110-157 | over any run of calls, past deliveries stay, and every callback invoked is for a uuid pending at the start or submitted during the run |
| `Jobs.EachEntryDeliversAtMostOnce` | yoga_image_optimizer/thumbnailer.py:110-157 | over any run of calls from a state satisfying the invariant, deliveries made from index `from` on come from pairwise different entries, given that the earlier ones already do |
| `Jobs.RunDeliversEachEntryAtMostOnce` | yoga_image_optimizer/thumbnailer.py:119-146 | a callback fires at most once per accepted request: no two callbacks invoked during a run come from the same registered entry |
| `Jobs.CancelSilencesUntilResubmitted` | yoga_image_optimizer/thumbnailer.py:119-152 | after `cancel(uuid)`, no callback fires for that uuid until it is submitted again |
| `Jobs.CancelAllSilencesEarlierJobs` | yoga_image_optimizer/thumbnailer.py:119-157 | after `cancel_all()`, callbacks fire only for uuids submitted again afterwards |
| `Jobs.GenerateThenCancelIsSilent` | yoga_image_optimizer/thumbnailer.py:110-152 | `generate` then `cancel` on a new uuid restores the table, requests cancellation of the job, and no callback fires for the uuid until it is submitted again |
| `Jobs.GenerateTwiceSubmitsOnce` | yoga_image_optimizer/thumbnailer.py:111-113 | a second `generate` for the same uuid is a no-op, so one job is submitted |
| `Jobs.StaleCompletionReachesResubmittedEntry` | yoga_image_optimizer/thumbnailer.py:119-135 | after generate, cancel and generate again, the first job's completion invokes the new callback with the first `iter_` and removes the new entry; the new job's completion then does nothing |
| `Jobs.AfterOwnCompletion` | yoga_image_optimizer/thumbnailer.py:119-135 | corrected completion: a future whose uuid's entry was registered by another future changes nothing; the invariant is kept |
| `Jobs.OwnCompletionDeliversRegisteredRow` | yoga_image_optimizer/thumbnailer.py:119-135 | with the corrected completion, a callback always receives the `iter_` its entry was registered with, and only the completing future's own entry is removed |
| `Jobs.OwnCompletionIgnoresStaleJob` | yoga_image_optimizer/thumbnailer.py:119-135 | with the corrected completion, the stale job of the scenario above invokes nothing, and the new job delivers the new `iter_` to the new callback |
| `Jobs.StaleCompletionAfterCancelAll` | yoga_image_optimizer/thumbnailer.py:119-157 | after generate, `cancel_all` and generate again, the first job, submitted to the now shut-down executor, invokes the new callback with the first `iter_` and removes the new entry |
| `Jobs.OwnCompletionIgnoresRetiredExecutor` | yoga_image_optimizer/thumbnailer.py:119-157 | with the corrected completion, a job submitted to an executor that `cancel_all` shut down changes nothing |
| `Jobs.ShownForIntended` | yoga_image_optimizer/thumbnailer.py:124-133 | corrected hand-on: a pixbuf as is, `THUMBNAIL_BROKEN` for an OSError and for any other exception, nothing exactly for a CancelledError; it agrees with `Jobs.ShownFor` wherever that hands something on |
| `Jobs.AfterIntendedCompletion` | yoga_image_optimizer/thumbnailer.py:119-135 | corrected completion with the placeholder for every failure: an absent uuid or a CancelledError changes nothing; the invariant is kept |
| `Jobs.FailedOpenBlocksResubmission` | yoga_image_optimizer/thumbnailer.py:43-49 | as written, the completion of a job whose file cannot be opened invokes no callback and leaves the entry, so a later `generate` for the uuid is a no-op until `cancel(uuid)` or `cancel_all()` removes the entry, after which it submits a new job |
| `Jobs.IntendedCompletionAlwaysDelivers` | yoga_image_optimizer/thumbnailer.py:119-135 | with the corrected completion, every non-cancelled completion for a pending uuid invokes its callback once, with the pixbuf or `THUMBNAIL_BROKEN`, removes the entry, and lets the next `generate` submit a job |
| `Thumbnailing.Thumbnailer.constructor` | yoga_image_optimizer/thumbnailer.py:105-108 | the object starts in the initial state and satisfies the invariant |
| `Thumbnailing.Thumbnailer.Generate` | yoga_image_optimizer/thumbnailer.py:110-146 | the fields are updated in place to the state `Jobs.AfterGenerate` gives; the invariant is kept |
| `Thumbnailing.Thumbnailer.Cancel` | yoga_image_optimizer/thumbnailer.py:148-152 | the fields are updated in place to the state `Jobs.AfterCancel` gives; the invariant is kept |
| `Thumbnailing.Thumbnailer.CancelAll` | yoga_image_optimizer/thumbnailer.py:154-157 | the fields are updated in place to the state `Jobs.AfterCancelAll` gives; the invariant is kept |
| `Thumbnailing.Thumbnailer.Complete` | yoga_image_optimizer/thumbnailer.py:119-135 | the done-callback updates the fields to the state `Jobs.AfterCompletion` gives; the invariant is kept |
| `Thumbnailing.GenerateThenCancel` | yoga_image_optimizer/thumbnailer.py:110-152 | on the object, `generate`, `cancel` and then the job's completion, whatever its outcome, leave the table as it was and invoke no callback |
| `Thumbnailing.CancelAllThenComplete` | yoga_image_optimizer/thumbnailer.py:119-157 | on the object, the completion of any submitted job after `cancel_all` invokes no callback |

## Left out

- Threads and the executor's scheduling are not modelled. This includes `MAX_WORKERS`, whether `future.cancel()` succeeds, and what `shutdown(wait=False, cancel_futures=True)` actually stops. Futures and executors are numbers. A completion is an explicit call that may come in any order and with any outcome.
- The window between submitting a job (lines 137-140) and registering its entry (line 142) is not modelled. A job that completes inside it finds its uuid absent, and its entry then stays until `cancel(uuid)` or `cancel_all()` removes it. `generate` is one atomic step in the model.
- Each completion is one atomic step, but `_thumbnail_callback` runs on a worker thread and nothing locks `_pending`. A `cancel(uuid)` between the membership test (line 121) and line 134 makes line 134 raise KeyError. A `cancel(uuid)` between lines 134 and 135 lets the callback fire after the cancel, and then `del` raises KeyError. `Jobs.CancelSilencesUntilResubmitted`, `Jobs.GenerateThenCancelIsSilent`, `Jobs.CancelAllSilencesEarlierJobs`, `Jobs.RunDeliversEachEntryAtMostOnce` and `Thumbnailing.GenerateThenCancel` hold only under this atomicity.
- A job's outcome is a parameter of the completion. It is not derived from `preview_gdk_pixbuf_from_image` on the job's path, because that needs the file system.
- A job records the preview size it is submitted with, always the default 64 (`Preview.DEFAULT_SIZE`). Nothing ties a job's outcome to that size.
- PIL's image decoding, `Image.new`, `paste` and the BOX-filter `thumbnail` step are not modelled. Together they are the function parameter `scale`. Their only property used is a `size × size` bound, and it is used as a hypothesis.
- Non-integer Exif tag values are left out. An Exif value of another Python type that compares equal to a key (such as `6.0`) would also select a table entry.
- `Gio` URI conversion, `GnomeDesktop.desktop_thumbnail_path_for_uri` (the freedesktop.org Thumbnail Managing Standard hash) and `os.path.isfile` are foreign calls. They are the uninterpreted function fields of `Cache`.
- Loading `THUMBNAIL_BROKEN` from its SVG file is not modelled. It is the constant constructor `ThumbnailBroken`.
- The error messages printed and the `close()` calls on the images are left out.
- The callback itself is opaque: invoking it is recorded, and its effect on the UI is not modelled.

## Findings

| source | as written | input that shows it | evidently intended | confidence | as-written member | corrected member |
|---|---|---|---|---|---|---|
| yoga_image_optimizer/thumbnailer.py:119-135 | the done-callback checks only that its uuid is pending, then calls the pending entry's callback with its own captured `iter_` and deletes that entry | `generate(u, i1, p1, c1)`; `cancel(u)` while the job is already running, so its cancel fails; `generate(u, i2, p2, c2)`; the first job completes with pixbuf P. Callback `c2` receives `(i1, P)`, the new entry is deleted, and the second job's result is then dropped. The same happens with `cancel_all()` in place of `cancel(u)`: `shutdown(wait=False, cancel_futures=True)` (line 156) does not stop a running job | as the comment at line 120 says, a cancelled job goes no further: a completion acts only on the entry its own future registered, and no job submitted before `cancel_all()` delivers | not executed; high (follows from the code's control flow) | `Jobs.StaleCompletionReachesResubmittedEntry` and `Jobs.StaleCompletionAfterCancelAll` (about `Jobs.AfterCompletion`) | `Jobs.AfterOwnCompletion`, with `Jobs.OwnCompletionDeliversRegisteredRow`, `Jobs.OwnCompletionIgnoresStaleJob` and `Jobs.OwnCompletionIgnoresRetiredExecutor` |
| yoga_image_optimizer/thumbnailer.py:43-83 | when opening the image fails, the error is printed and `return pixbuf` raises UnboundLocalError; the done-callback catches only OSError and CancelledError, so it invokes no callback and keeps the entry | `generate(u, i, p, c)` for a path `open_image_from_path` cannot open; the job completes. No callback fires, `u` stays pending, and a later `generate(u, ...)` returns at line 112 until `cancel(u)` or `cancel_all()` removes the entry | a file that cannot be decoded yields the `THUMBNAIL_BROKEN` placeholder, delivered like a pixbuf, and the entry is removed | not executed; high (follows from the code's control flow) | `Preview.PreviewGdkPixbufFromImage` (an unopenable file gives `OtherErr`) and `Jobs.FailedOpenBlocksResubmission` (about `Jobs.AfterCompletion`) | `Jobs.ShownForIntended` and `Jobs.AfterIntendedCompletion`, with `Jobs.IntendedCompletionAlwaysDelivers` |

`Thumbnailing.Thumbnailer.Complete` models the code as written, so it uses `Jobs.AfterCompletion`. Each corrected step fixes the defect of its own row only.

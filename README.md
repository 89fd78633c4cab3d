# Image gallery bookkeeping, modelled in Dafny

This project models the bookkeeping of `ImageApp`, the Tk image-gallery
window of `Image-display-application/app.py`. The window keeps:

- three parallel lists: `images` (thumbnail handles), `image_labels`
  (thumbnail cells) and `image_paths` (the chosen files);
- a thumbnail cache `image_cache` from path to handle;
- a FIFO work queue of closures, drained by `process_queue`;
- the path list saved in `image_paths.json`.

The model treats this as a sequential state machine.

- `lists.dfy` (module `Lists`): the Python list operations the class
  uses. `IndexOf` is `list.index`, `RemoveAt` is `del xs[i]` and
  `RemoveFirst` is `list.remove`.
- `gallery.dfy` (module `Gallery`): the state as a value (`State`) and one
  function per method of `ImageApp`. A queued closure is a `Task`:
  `AddImageTask(path)` or `CreateLabelTask(image, path)`. Decoding a file
  with PIL is an oracle `Decoder = Path -> Option<Handle>`: `None` stands for
  the exception. `Handle` is an opaque thumbnail handle. A cell (`Label`)
  keeps only the grid position it was placed at, its image and its path.
  The saved file is `saved: Option<seq<Path>>`, where `None` means the file
  does not exist.
- `properties.dfy` (module `GalleryProperties`): lemmas about those
  functions. They cover adding, the cache, the grid, deletion, persistence,
  the drain, two scenarios and the alignment hazards of the source.
- `app.dfy` (module `App`): class `ImageApp`, with the same fields, updated
  in place by methods with loops. Each method is proved to leave exactly
  the state its `Gallery` function describes. Each also keeps the class
  invariant `Valid()`: cells and images stay index-aligned, and the file
  mirrors `image_paths`.

Facts about the code that the model reproduces:

- Decoding runs on the UI thread inside `process_queue`, not on the
  background thread. `add_images` only queues `add_image` closures
  (app.py:43-47), so the decode and the cache insert happen when the drain
  runs them.
- A path whose decode fails stays in `image_paths` and in the saved file.
  Its add task queues no label task, so it creates no cell.
- `delete_image` does not guard its lookups. A path that is not listed
  raises `ValueError` from `index`. A first index with no image raises
  `IndexError` from `del`. `DeleteStatus` models both, together with the
  state the method leaves when it raises.
- `add_images` saves inside its loop. So an empty selection leaves the
  file untouched, and once the loop ends the file equals the list.

Alignment hazards of the source, shown by lemmas:

- After a failed decode, `image_paths` runs one ahead of `images`
  (`FailedDecodeMisaligns`).
- After that, deleting a path listed after the failed one removes the
  `images` and `image_labels` entries of another cell, while the frame
  destroyed is still the clicked one
  (`DeleteAfterFailedDecodeRemovesWrongCell`).
- After that, deleting the last file's cell can raise `IndexError` after
  its frame is already destroyed (app.py:81). It changes no list and not
  the file, so the cell disappears and then comes back on the next start
  (`FailedDecodeBlocksDelete`).
- The next cell is placed by the current cell count. So after deleting any
  cell but the last, the new cell lands on the grid position the old last
  cell still holds (`DeleteThenCreateOverlaps`). Deleting the last cell
  does not cause this (`DeleteLastThenCreateKeepsRowMajor`).

## Model

| member | source | states |
|---|---|---|
| `App.ImageApp.constructor` | Image-display-application/app.py:10-36 | Starts with empty lists, an empty cache and an empty queue, then runs `load_saved_images`. The resulting state is `Valid()` and its cells are row-major. |
| `App.ImageApp.AddImages` | Image-display-application/app.py:43-47 | For each selected path in order, the loop queues an add task, appends the path and saves. The final state is `Gallery.AddImages` of the old state, and `Valid()` is kept. |
| `App.ImageApp.AddImage` | Image-display-application/app.py:49-62 | A cache hit reuses the handle. A miss decodes the file and stores the handle in the cache. A failed decode returns with nothing else done. Otherwise one label task is queued. New state = `Gallery.AddImage`. |
| `App.ImageApp.CreateImageLabel` | Image-display-application/app.py:64-78 | Places the cell at `divmod(len(labels), 5)` and appends to `images` and `image_labels`. New state = `Gallery.CreateImageLabel`. Keeps `Valid()` and the row-major layout. |
| `App.ImageApp.DeleteImage` | Image-display-application/app.py:80-86 | Returns the exception raised, or `Deleted`. The new state, including any partial update made before an exception, is `Gallery.DeleteImage`. A valid state never reaches the `image_labels` IndexError. |
| `App.ImageApp.SaveImagePaths` | Image-display-application/app.py:126-128 | The file is overwritten with the whole current list. |
| `App.ImageApp.LoadSavedImages` | Image-display-application/app.py:130-135 | If the file exists, its list replaces `image_paths`, and the loop queues one add task per path. New state = `Gallery.LoadSavedImages`. |
| `App.ImageApp.RunTask` | Image-display-application/app.py:139-140 | Calling a queued closure runs `add_image` or `create_image_label` with its captured arguments. |
| `App.ImageApp.ProcessQueue` | Image-display-application/app.py:137-140 | The loop runs tasks until the queue is empty. The final state is `Gallery.ProcessQueue` of the old state. It keeps `Valid()` and the row-major layout. |
| `Gallery.Fresh` | Image-display-application/app.py:15-18 | The fields as `__init__` sets them before loading: empty lists, empty cache, empty queue. |
| `Gallery.SaveImagePaths` | Image-display-application/app.py:126-128 | The state after `save_image_paths`: the file holds the whole current list. |
| `Gallery.LoadSavedImages` | Image-display-application/app.py:130-135 | The state after `load_saved_images`. If the file exists, its list replaces `image_paths` and one add task per path is queued. Otherwise nothing changes. |
| `Gallery.AddImages` | Image-display-application/app.py:43-47 | The state after `add_images`: paths appended, one add task per path queued, file saved unless the selection is empty. |
| `Gallery.AddImage` | Image-display-application/app.py:49-62 | The state after `add_image`: a cache hit, a decoding miss stored in the cache, or a failed decode that changes nothing. |
| `Gallery.CreateImageLabel` | Image-display-application/app.py:64-78 | The state after `create_image_label`: one image and one cell at `divmod(len(labels), 5)` appended. |
| `Gallery.DeleteOutcome` | Image-display-application/app.py:82-84 | Whether `delete_image` completes, or which lookup raises: `index`, `del images` or `del image_labels`. |
| `Gallery.DeleteImage` | Image-display-application/app.py:80-86 | The state `delete_image` leaves, including the partial update made when `del image_labels` raises after `del images`. |
| `Gallery.RunTask` | Image-display-application/app.py:140 | Running a queued closure: `add_image` or `create_image_label` with the captured arguments. |
| `Gallery.Step` | Image-display-application/app.py:139-140 | One turn of the drain loop: take the head of the queue, then run it. |
| `Gallery.Executed` | Image-display-application/app.py:137-140 | The tasks one drain pass runs, in the order it runs them. |
| `Lists.IndexOf` | Image-display-application/app.py:82 | Returns the first index of the path. Returns `None` exactly when the path is not listed, the case where `index` raises. |
| `Lists.RemoveAt` | Image-display-application/app.py:83-84 | `del xs[i]` shortens the list by one and keeps the other elements in order. |
| `Lists.RemoveFirst` | Image-display-application/app.py:85 | `remove` shortens the list by one and takes exactly one copy of the path out of its multiset. |
| `Lists.RemoveFirstIsRemoveAtIndex` | Image-display-application/app.py:82-85 | `remove(p)` drops the same element as `del` at `index(p)`: the first occurrence. |
| `Gallery.GridPosition` | Image-display-application/app.py:65 | `divmod(n, 5)` gives a column below 5 with `row * 5 + col == n`. |
| `Gallery.AddTasks` | Image-display-application/app.py:44-45 | One add task per path, in path order. |
| `Gallery.ProcessQueue` | Image-display-application/app.py:137-140 | A drain pass ends with the queue empty. |
| `GalleryProperties.AddImagesAppendsAndQueues` | Image-display-application/app.py:43-47 | The selection is appended in order, one add task per path is queued in that order after the old queue, and the file then equals the list. An empty selection changes nothing. |
| `GalleryProperties.AddImageCases` | Image-display-application/app.py:49-62 | A hit leaves the cache alone and queues the cached handle. A decoding miss adds exactly that one key and queues the new handle. A path that is neither cached nor decodable changes nothing. |
| `GalleryProperties.AddImageTwiceSharesHandle` | Image-display-application/app.py:50-57 | A second `add_image` of the same path hits the cache: the cache is unchanged, and both label tasks carry the same handle. |
| `GalleryProperties.CacheNeverShrinks` | Image-display-application/app.py:18 | `add_image` only adds decoded entries. No other operation touches the cache. |
| `GalleryProperties.CacheExtendsTransitive` | Image-display-application/app.py:57 | Growing the cache by decoded entries, done twice, is still growth by decoded entries. |
| `GalleryProperties.CreateImageLabelPlacement` | Image-display-application/app.py:65-78 | The new cell is at row `n div 5`, column `n mod 5` (below 5), where n is the old cell count. Both lists grow by exactly one. Earlier cells are kept. Row-major layout and alignment are preserved. |
| `GalleryProperties.RowMajorCellsDistinct` | Image-display-application/app.py:65-67 | In a row-major layout no two cells share a grid position. |
| `GalleryProperties.DeleteImageFirstOccurrence` | Image-display-application/app.py:80-86 | Deletion completes iff the path is listed and its first index has an image. It then removes that index from `images` and `image_labels`, and the first copy of the path from `image_paths`. Others keep their order. Cache and queue are untouched, and the file equals the new list. Otherwise nothing changes. |
| `GalleryProperties.RemoveAtKeepsAligned` | Image-display-application/app.py:83-84 | Deleting the same index from `images` and `image_labels` keeps them index-aligned. |
| `GalleryProperties.DeleteThenReload` | Image-display-application/app.py:80-86 | Each delete that completes takes one copy of the path out of the file. A path listed once is not brought back by reloading, and reloading queues no add task for it. |
| `GalleryProperties.SaveLoadRoundTrip` | Image-display-application/app.py:126-135 | Saving then loading gives back the same list, and queues one add task per saved path in saved order behind the tasks already queued, which stay in front unchanged. Images, cells and cache are untouched. |
| `GalleryProperties.LoadSaveStable` | Image-display-application/app.py:126-135 | When the file exists, loading then saving leaves it as it was. |
| `GalleryProperties.AddImagesKeepsInvariants` | Image-display-application/app.py:44-47 | `add_images` keeps `images` and `image_labels` aligned, and leaves the file equal to the list. |
| `GalleryProperties.AddImageKeepsInvariants` | Image-display-application/app.py:49-62 | `add_image` keeps the cell lists aligned and the file equal to the list. |
| `GalleryProperties.DeleteImageKeepsSynced` | Image-display-application/app.py:82-86 | Sync between the list and the file is kept. A completed delete saves the list shortened by one. A delete that raises leaves the paths and the file as they were. |
| `GalleryProperties.SaveImagePathsKeepsInvariants` | Image-display-application/app.py:126-128 | After saving, the file equals the list, and the cells stay aligned. |
| `GalleryProperties.LoadSavedImagesKeepsInvariants` | Image-display-application/app.py:130-135 | Loading an existing file makes the list equal to it. Loading keeps alignment and, with no file, changes nothing. |
| `GalleryProperties.InitialState` | Image-display-application/app.py:15-18 | After `__init__` the cell lists and the cache are empty. The paths and the queue come from the file, and every invariant holds. |
| `GalleryProperties.ProcessQueueIsFifo` | Image-display-application/app.py:137-140 | A pass runs the tasks already queued first, in FIFO order, and ends with the queue empty. |
| `GalleryProperties.ProcessQueueCellCount` | Image-display-application/app.py:62 | A pass creates one cell per queued label task and one per queued add task whose path is cached or decodes. So the label tasks queued during the pass also run in it. |
| `GalleryProperties.ProcessQueuePreserves` | Image-display-application/app.py:137-140 | A pass keeps alignment, the row-major layout, the paths and the file. It keeps existing cells, and it only adds decoded entries to the cache. |
| `GalleryProperties.FreshStartIsEmpty` | Image-display-application/app.py:130-131 | With no saved file the gallery starts empty and stays empty after a pass. |
| `GalleryProperties.TwoValidImages` | Image-display-application/app.py:43-78 | Two decodable files fill row 0, columns 0 and 1, in selection order, and the file lists both. |
| `GalleryProperties.ValidAndMissingImage` | Image-display-application/app.py:43-62 | With one decodable file and one undecodable file, exactly one cell appears, yet both paths stay in the list and in the file. |
| `GalleryProperties.FailedDecodeMisaligns` | Image-display-application/app.py:46-47 | A failed decode keeps its path in the list and the file but adds no image. `image_paths` then runs one ahead of `images`. |
| `GalleryProperties.DeleteAfterFailedDecodeRemovesWrongCell` | Image-display-application/app.py:82-84 | From a fresh start, adding `[a, b, c]` with `a` undecodable and draining the queue gives cells for `b` and `c`. Deleting `b` then uses index 1, and removes the `images` and `image_labels` entries that show `c`. |
| `GalleryProperties.DrainAfterFailedDecode` | Image-display-application/app.py:137-140 | The drain of `[a, b, c]` from a fresh start with `a` undecodable: cells at (0,0) for `b` and (0,1) for `c`, and all three paths listed. |
| `GalleryProperties.DeleteThenCreateOverlaps` | Image-display-application/app.py:65 | For every aligned row-major state: after deleting any cell but the last, the new cell gets the same (row, col) as the cell before it, so the grid is no longer row-major. |
| `GalleryProperties.DeleteShiftsLastCell` | Image-display-application/app.py:84 | Deleting a cell before the last shortens `image_labels` by one, and the old last cell moves down one index. |
| `GalleryProperties.DeleteLastThenCreateKeepsRowMajor` | Image-display-application/app.py:65 | Deleting the last cell and then adding one keeps the grid row-major. |
| `GalleryProperties.FailedDecodeBlocksDelete` | Image-display-application/app.py:58-60 | With `a` undecodable, after adding `[a, b]` and draining, deleting `b` raises IndexError at app.py:83, changes no list and not the file, and `b` is still loaded from the file on the next start. |

## Left out

- Tk widgets are not modelled: frames, labels, buttons, `grid`/`pack`, event bindings and `destroy`. Only the computed grid position and the list appends are kept.
- PIL decoding, LANCZOS resizing to 300×200 and `PhotoImage` are foreign library calls, modelled as the `Decoder` oracle and the opaque `Handle`.
- The viewer window `image_clicked` is not modelled. Its zoom is floating-point scaling with `int` truncation, and its pan is Tk `scan_mark`/`scan_dragto`.
- The background thread started by `load_images` and the file dialog are not modelled. `add_images` is a sequential step, and interleavings with anything the UI thread runs (the drain, `delete_image`) are not considered.
- JSON encoding and file I/O are abstracted to `saved: Option<seq<Path>>`. Malformed JSON, which would raise in `load_saved_images`, is not modelled.
- The 100 ms `after` rescheduling and `mainloop` are not modelled. `ProcessQueue` is one drain pass.
- `Decoder` is one fixed function for the whole run. A file that changes on disk between two decodes is not modelled, so a path that failed once and decodes on a later start is outside the model. `CellsOfStable` and `ProcessQueueCellCount` rely on this.
- The error message that `add_image` prints on a decode failure is not modelled.
- App.ImageApp.DeleteImage: does not take the clicked `label_frame`, because destroying that widget is UI. So the model does not capture that, with duplicate paths or after any failed decode, the widget destroyed can differ from the cell whose `images` and `image_labels` entries are removed, and that the frame is destroyed even when `delete_image` then raises.

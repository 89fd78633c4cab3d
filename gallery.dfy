/** The bookkeeping of `ImageApp` as a state machine over values: one
    function per method of the class, each giving the state the method
    leaves behind. The class in module App is proved against these. */
module Gallery {
  import opened Lists

  type Path = string

  /** An opaque handle to a decoded, resized thumbnail (a `PhotoImage`). */
  datatype Handle = Handle(id: nat)

  /** Decoding a file: `None` where opening, resizing or wrapping the image
      raises. */
  type Decoder = Path -> Option<Handle>

  /** A thumbnail cell: the grid position it was placed at, the image it
      shows and the path its delete button and click handler refer to. */
  datatype Label = Label(row: nat, col: nat, image: Handle, path: Path)

  /** A closure waiting in the work queue. */
  datatype Task =
    | AddImageTask(path: Path)
    | CreateLabelTask(image: Handle, path: Path)

  /** How `delete_image` ends: normally, or with the exception it raises. */
  datatype DeleteStatus =
    | Deleted               // the cell's bookkeeping was removed
    | PathNotFound          // `image_paths.index` raised ValueError
    | ImageIndexOutOfRange  // `del self.images[index]` raised IndexError
    | LabelIndexOutOfRange  // `del self.image_labels[index]` raised IndexError

  /** The fields of `ImageApp`, the work queue, and the contents of
      `image_paths.json` (`None` while the file does not exist). */
  datatype State = State(
    images: seq<Handle>,
    labels: seq<Label>,
    paths: seq<Path>,
    cache: map<Path, Handle>,
    queue: seq<Task>,
    saved: Option<seq<Path>>)

  /** Number of columns of the thumbnail grid. */
  const Columns: nat := 5

  /** `divmod(n, 5)`: the row-major cell of the n-th thumbnail. */
  function GridPosition(n: nat): (rc: (nat, nat))
    ensures rc.1 < Columns
    ensures rc.0 * Columns + rc.1 == n
  {
    (n / Columns, n % Columns)
  }

  /** The tasks `add_images` and `load_saved_images` enqueue: one per path. */
  function AddTasks(ps: seq<Path>): (r: seq<Task>)
    ensures |r| == |ps|
    ensures forall i :: 0 <= i < |ps| ==> r[i] == AddImageTask(ps[i])
  {
    if ps == [] then [] else AddTasks(ps[..|ps| - 1]) + [AddImageTask(ps[|ps| - 1])]
  }

  /** The fields as `__init__` sets them, before `load_saved_images`. */
  function Fresh(saved: Option<seq<Path>>): State {
    State([], [], [], map[], [], saved)
  }

  /** `save_image_paths`: the file is overwritten with the whole list. */
  function SaveImagePaths(s: State): State {
    s.(saved := Some(s.paths))
  }

  /** `load_saved_images`: when the file exists its list replaces
      `image_paths` and one add task per path is queued. */
  function LoadSavedImages(s: State): State {
    match s.saved
    case None => s
    case Some(ps) => s.(paths := ps, queue := s.queue + AddTasks(ps))
  }

  /** `add_images`: each path is queued, appended and saved in turn, so an
      empty selection saves nothing. */
  function AddImages(s: State, ps: seq<Path>): State {
    s.(queue := s.queue + AddTasks(ps),
       paths := s.paths + ps,
       saved := if ps == [] then s.saved else Some(s.paths + ps))
  }

  /** `add_image`: a cache hit reuses the handle; a miss decodes and caches;
      a decode failure returns without queuing anything. */
  function AddImage(s: State, p: Path, decode: Decoder): State {
    if p in s.cache then
      s.(queue := s.queue + [CreateLabelTask(s.cache[p], p)])
    else
      match decode(p)
      case None => s
      case Some(h) => s.(cache := s.cache[p := h], queue := s.queue + [CreateLabelTask(h, p)])
  }

  /** `create_image_label`: a new cell at the next row-major position. */
  function CreateImageLabel(s: State, h: Handle, p: Path): State {
    var (row, col) := GridPosition(|s.labels|);
    s.(images := s.images + [h], labels := s.labels + [Label(row, col, h, p)])
  }

  /** Which way `delete_image(p)` ends in state `s`. */
  function DeleteOutcome(s: State, p: Path): DeleteStatus {
    match IndexOf(s.paths, p)
    case None => PathNotFound
    case Some(i) =>
      if i >= |s.images| then ImageIndexOutOfRange
      else if i >= |s.labels| then LabelIndexOutOfRange
      else Deleted
  }

  /** `delete_image(p)`: the state it leaves, including the partial update
      made before an exception. */
  function DeleteImage(s: State, p: Path): State {
    match IndexOf(s.paths, p)
    case None => s
    case Some(i) =>
      if i >= |s.images| then s
      else if i >= |s.labels| then s.(images := RemoveAt(s.images, i))
      else
        var paths := RemoveFirst(s.paths, p);
        s.(images := RemoveAt(s.images, i), labels := RemoveAt(s.labels, i),
           paths := paths, saved := Some(paths))
  }

  /** Calling the closure a task stands for. */
  function RunTask(s: State, t: Task, decode: Decoder): State {
    match t
    case AddImageTask(p) => AddImage(s, p, decode)
    case CreateLabelTask(h, p) => CreateImageLabel(s, h, p)
  }

  /** One turn of the drain loop: `queue.get()` and run the task. */
  function Step(s: State, decode: Decoder): State
    requires s.queue != []
  {
    RunTask(s.(queue := s.queue[1..]), s.queue[0], decode)
  }

  /** A measure the drain decreases: an add task may still spawn a label
      task, a label task spawns nothing. */
  function TaskWeight(t: Task): nat {
    if t.AddImageTask? then 2 else 1
  }

  function Weight(q: seq<Task>): nat {
    if q == [] then 0 else TaskWeight(q[0]) + Weight(q[1..])
  }

  lemma {:induction false} WeightAppend(q: seq<Task>, t: Task)
    ensures Weight(q + [t]) == Weight(q) + TaskWeight(t)
  {
    if q != [] {
      assert (q + [t])[1..] == q[1..] + [t];
      WeightAppend(q[1..], t);
    }
  }

  lemma StepWeight(s: State, decode: Decoder)
    requires s.queue != []
    ensures Weight(Step(s, decode).queue) < Weight(s.queue)
  {
    var rest := s.queue[1..];
    match s.queue[0]
    case AddImageTask(p) =>
      if Displayable(p, s.cache, decode) {
        var h := if p in s.cache then s.cache[p] else decode(p).value;
        WeightAppend(rest, CreateLabelTask(h, p));
      }
    case CreateLabelTask(_, _) =>
  }

  /** `process_queue`: one pass that runs tasks until the queue is empty,
      including the tasks queued by the tasks it runs. */
  function ProcessQueue(s: State, decode: Decoder): (r: State)
    ensures r.queue == []
    decreases Weight(s.queue)
  {
    if s.queue == [] then s
    else
      StepWeight(s, decode);
      ProcessQueue(Step(s, decode), decode)
  }

  /** The tasks one drain pass runs, in the order it runs them. */
  function Executed(s: State, decode: Decoder): seq<Task>
    decreases Weight(s.queue)
  {
    if s.queue == [] then []
    else
      StepWeight(s, decode);
      [s.queue[0]] + Executed(Step(s, decode), decode)
  }

  /** `images` and `image_labels` are index-aligned: cell k shows image k. */
  predicate Aligned(s: State) {
    |s.images| == |s.labels| &&
    forall k :: 0 <= k < |s.labels| ==> s.labels[k].image == s.images[k]
  }

  /** The file holds `image_paths`, or is absent and the list empty. */
  predicate Synced(s: State) {
    s.saved == Some(s.paths) || (s.saved == None && s.paths == [])
  }

  /** Cell k sits at the k-th row-major grid position. */
  predicate RowMajor(labels: seq<Label>) {
    forall k :: 0 <= k < |labels| ==> (labels[k].row, labels[k].col) == GridPosition(k)
  }

  /** `after` keeps every entry of `before` and adds only decoded ones. */
  predicate CacheExtends(before: map<Path, Handle>, after: map<Path, Handle>, decode: Decoder) {
    (forall p :: p in before ==> p in after && after[p] == before[p]) &&
    (forall p :: p in after && p !in before ==> decode(p) == Some(after[p]))
  }

  /** `add_image(p)` will queue a label task: `p` is cached or decodes. */
  predicate Displayable(p: Path, cache: map<Path, Handle>, decode: Decoder) {
    p in cache || decode(p).Some?
  }

  /** How many cells the tasks of `q` eventually create. */
  function CellsOf(q: seq<Task>, cache: map<Path, Handle>, decode: Decoder): nat {
    if q == [] then 0
    else
      (match q[0]
       case CreateLabelTask(_, _) => 1
       case AddImageTask(p) => if Displayable(p, cache, decode) then 1 else 0)
      + CellsOf(q[1..], cache, decode)
  }
}

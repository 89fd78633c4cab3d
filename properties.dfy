/** What the gallery's bookkeeping guarantees, and where it goes wrong. */
module GalleryProperties {
  import opened Lists
  import opened Gallery

  // ---------------------------------------------------------------------
  // Adding paths

  /** `add_images` appends the selection in order, queues one add task per
      path in the same order, and leaves the file equal to the new list. */
  lemma AddImagesAppendsAndQueues(s: State, ps: seq<Path>)
    ensures var r := AddImages(s, ps);
      && r.paths == s.paths + ps
      && |r.queue| == |s.queue| + |ps|
      && r.queue[..|s.queue|] == s.queue
      && (forall i :: 0 <= i < |ps| ==> r.queue[|s.queue| + i] == AddImageTask(ps[i]))
      && (ps != [] ==> r.saved == Some(r.paths))
      && (ps == [] ==> r == s)
      && r.images == s.images && r.labels == s.labels && r.cache == s.cache
  {
  }

  // ---------------------------------------------------------------------
  // The thumbnail cache

  /** A hit reuses the cached handle and leaves the cache alone; a miss
      that decodes adds exactly that entry; either way one label task with
      that handle is queued. A failed decode changes nothing. */
  lemma AddImageCases(s: State, p: Path, decode: Decoder)
    ensures var r := AddImage(s, p, decode);
      && r.paths == s.paths && r.saved == s.saved
      && r.images == s.images && r.labels == s.labels
      && (p in s.cache ==>
            r.cache == s.cache && r.queue == s.queue + [CreateLabelTask(s.cache[p], p)])
      && (p !in s.cache && decode(p).Some? ==>
            r.cache == s.cache[p := decode(p).value] && r.cache.Keys == s.cache.Keys + {p}
            && r.queue == s.queue + [CreateLabelTask(decode(p).value, p)])
      && (!Displayable(p, s.cache, decode) ==> r == s)
  {
  }

  /** Adding the same path twice decodes it at most once: the second call
      finds the entry the first one made and queues the same handle. */
  lemma {:induction false} AddImageTwiceSharesHandle(s: State, p: Path, decode: Decoder)
    requires Displayable(p, s.cache, decode)
    ensures var r1 := AddImage(s, p, decode);
      var r2 := AddImage(r1, p, decode);
      && p in r1.cache
      && r2.cache == r1.cache
      && r1.queue == s.queue + [CreateLabelTask(r1.cache[p], p)]
      && r2.queue == r1.queue + [CreateLabelTask(r1.cache[p], p)]
  {
  }

  /** Every operation extends the cache: nothing ever removes an entry. */
  lemma CacheNeverShrinks(s: State, p: Path, ps: seq<Path>, h: Handle, decode: Decoder)
    ensures CacheExtends(s.cache, AddImage(s, p, decode).cache, decode)
    ensures AddImages(s, ps).cache == s.cache
    ensures CreateImageLabel(s, h, p).cache == s.cache
    ensures DeleteImage(s, p).cache == s.cache
    ensures SaveImagePaths(s).cache == s.cache
    ensures LoadSavedImages(s).cache == s.cache
  {
  }

  lemma CacheExtendsTransitive(a: map<Path, Handle>, b: map<Path, Handle>, c: map<Path, Handle>, decode: Decoder)
    requires CacheExtends(a, b, decode) && CacheExtends(b, c, decode)
    ensures CacheExtends(a, c, decode)
  {
  }

  // ---------------------------------------------------------------------
  // Grid placement

  /** The new cell goes to `divmod(n, 5)` for the old cell count n, both
      lists grow by one, and row-major layout and alignment are kept. */
  lemma CreateImageLabelPlacement(s: State, h: Handle, p: Path)
    ensures var r := CreateImageLabel(s, h, p);
      var n := |s.labels|;
      && r.images == s.images + [h]
      && |r.labels| == n + 1 && r.labels[..n] == s.labels
      && r.labels[n].image == h && r.labels[n].path == p
      && r.labels[n].col < Columns && r.labels[n].row * Columns + r.labels[n].col == n
      && (RowMajor(s.labels) ==> RowMajor(r.labels))
      && (Aligned(s) ==> Aligned(r))
      && (Synced(s) ==> Synced(r))
      && r.paths == s.paths && r.saved == s.saved && r.cache == s.cache && r.queue == s.queue
  {
  }

  /** In a row-major layout no two cells share a grid position. */
  lemma {:induction false} RowMajorCellsDistinct(labels: seq<Label>, i: nat, j: nat)
    requires RowMajor(labels) && i < |labels| && j < |labels| && i != j
    ensures (labels[i].row, labels[i].col) != (labels[j].row, labels[j].col)
  {
  }

  // ---------------------------------------------------------------------
  // Deletion

  /** `delete_image(p)` completes exactly when `p` is listed and its first
      index has a cell; it then removes that index from both cell lists and
      the first `p` from the paths, keeps everything else in order, leaves
      cache and queue alone and saves. Otherwise nothing changes. */
  lemma {:induction false} DeleteImageFirstOccurrence(s: State, p: Path)
    requires Aligned(s)
    ensures var r := DeleteImage(s, p);
      && (DeleteOutcome(s, p) == Deleted <==>
            p in s.paths && IndexOf(s.paths, p).value < |s.images|)
      && (DeleteOutcome(s, p) == Deleted ==>
            var i := IndexOf(s.paths, p).value;
            && r.images == RemoveAt(s.images, i)
            && r.labels == RemoveAt(s.labels, i)
            && r.paths == RemoveAt(s.paths, i)
            && multiset(r.paths) == multiset(s.paths) - multiset{p}
            && r.saved == Some(r.paths)
            && r.cache == s.cache && r.queue == s.queue
            && Aligned(r))
      && (DeleteOutcome(s, p) != Deleted ==> r == s)
      && DeleteOutcome(s, p) != LabelIndexOutOfRange
  {
    if p in s.paths {
      RemoveFirstIsRemoveAtIndex(s.paths, p);
      var i := IndexOf(s.paths, p).value;
      if i < |s.images| {
        RemoveAtKeepsAligned(s, i);
      }
    }
  }

  /** Removing the same index from both cell lists keeps them aligned. */
  lemma RemoveAtKeepsAligned(s: State, i: nat)
    requires Aligned(s) && i < |s.images|
    ensures Aligned(s.(images := RemoveAt(s.images, i), labels := RemoveAt(s.labels, i)))
  {
    var images, labels := RemoveAt(s.images, i), RemoveAt(s.labels, i);
    forall k | 0 <= k < |labels| ensures labels[k].image == images[k] {
      if k < i {
        assert labels[k] == s.labels[k];
      } else {
        assert labels[k] == s.labels[k + 1];
      }
    }
  }

  /** Deleting a path listed once and reloading the file does not bring
      it back; with duplicates one copy goes per delete. */
  lemma {:induction false} DeleteThenReload(s: State, p: Path)
    requires DeleteOutcome(s, p) == Deleted
    ensures var r := LoadSavedImages(DeleteImage(s, p));
      && r.paths == DeleteImage(s, p).paths
      && multiset(r.paths)[p] == multiset(s.paths)[p] - 1
      && (multiset(s.paths)[p] == 1 ==> p !in r.paths)
      && (multiset(s.paths)[p] == 1 ==> AddImageTask(p) !in r.queue[|s.queue|..])
  {
  }

  // ---------------------------------------------------------------------
  // Persistence

  /** Saving then loading gives back the same list and queues one add task
      per saved path, in saved order, behind the tasks already queued; the
      cells and the cache are untouched. */
  lemma SaveLoadRoundTrip(s: State)
    ensures var r := LoadSavedImages(SaveImagePaths(s));
      && r.paths == s.paths
      && r.saved == Some(s.paths)
      && |r.queue| == |s.queue| + |s.paths|
      && r.queue[..|s.queue|] == s.queue
      && r.images == s.images && r.labels == s.labels && r.cache == s.cache
      && (forall i :: 0 <= i < |s.paths| ==> r.queue[|s.queue| + i] == AddImageTask(s.paths[i]))
  {
  }

  /** When the file exists, loading then saving leaves it as it was. */
  lemma LoadSaveStable(s: State)
    requires s.saved.Some?
    ensures SaveImagePaths(LoadSavedImages(s)).saved == s.saved
  {
  }

  /** `add_images` keeps the cell lists aligned and the file equal to
      the list. */
  lemma AddImagesKeepsInvariants(s: State, ps: seq<Path>)
    ensures Aligned(s) ==> Aligned(AddImages(s, ps))
    ensures Synced(s) ==> Synced(AddImages(s, ps))
  {
    if ps == [] {
      assert s.paths + ps == s.paths;
    }
  }

  /** `add_image` touches neither the cell lists nor the paths. */
  lemma AddImageKeepsInvariants(s: State, p: Path, decode: Decoder)
    ensures Aligned(s) ==> Aligned(AddImage(s, p, decode))
    ensures Synced(s) ==> Synced(AddImage(s, p, decode))
  {
  }

  /** A `delete_image` that completes saves the shortened list; one that
      raises leaves paths and file as they were. */
  lemma DeleteImageKeepsSynced(s: State, p: Path)
    ensures Synced(s) ==> Synced(DeleteImage(s, p))
    ensures DeleteOutcome(s, p) == Deleted ==>
      DeleteImage(s, p).saved == Some(DeleteImage(s, p).paths) && |DeleteImage(s, p).paths| == |s.paths| - 1
    ensures DeleteOutcome(s, p) != Deleted ==>
      DeleteImage(s, p).paths == s.paths && DeleteImage(s, p).saved == s.saved
  {
  }

  /** After `save_image_paths` the file equals the list. */
  lemma SaveImagePathsKeepsInvariants(s: State)
    ensures Aligned(s) ==> Aligned(SaveImagePaths(s))
    ensures Synced(SaveImagePaths(s))
  {
  }

  /** After `load_saved_images` of an existing file, the list equals the
      file; with no file nothing changes. */
  lemma LoadSavedImagesKeepsInvariants(s: State)
    ensures Aligned(s) ==> Aligned(LoadSavedImages(s))
    ensures s.saved.Some? ==> Synced(LoadSavedImages(s))
    ensures Synced(s) ==> Synced(LoadSavedImages(s))
    ensures s.saved == None ==> LoadSavedImages(s) == s
  {
  }

  /** The state `__init__` reaches satisfies every invariant. */
  lemma InitialState(saved: Option<seq<Path>>)
    ensures var r := LoadSavedImages(Fresh(saved));
      && Aligned(r) && Synced(r) && RowMajor(r.labels)
      && r.images == [] && r.labels == [] && r.cache == map[]
      && r.paths == (if saved.Some? then saved.value else [])
      && r.queue == (if saved.Some? then AddTasks(saved.value) else [])
  {
  }

  // ---------------------------------------------------------------------
  // Draining the queue

  lemma PrefixTransitive(a: seq<Task>, b: seq<Task>, c: seq<Task>)
    requires a <= b && b <= c
    ensures a <= c
  {
  }

  /** One pass runs the queued tasks first, in FIFO order, and then the
      tasks they queued; it ends with the queue empty. */
  lemma {:induction false} ProcessQueueIsFifo(s: State, decode: Decoder)
    ensures s.queue <= Executed(s, decode)
    ensures ProcessQueue(s, decode).queue == []
    decreases Weight(s.queue)
  {
    if s.queue != [] {
      var t := Step(s, decode);
      StepWeight(s, decode);
      ProcessQueueIsFifo(t, decode);
      assert s.queue[1..] <= t.queue;
      PrefixTransitive(s.queue[1..], t.queue, Executed(t, decode));
      assert s.queue == [s.queue[0]] + s.queue[1..];
    }
  }

  lemma {:induction false} CellsOfAppend(q: seq<Task>, t: Task, cache: map<Path, Handle>, decode: Decoder)
    ensures CellsOf(q + [t], cache, decode) == CellsOf(q, cache, decode) + CellsOf([t], cache, decode)
  {
    if q != [] {
      assert (q + [t])[1..] == q[1..] + [t];
      CellsOfAppend(q[1..], t, cache, decode);
    }
  }

  /** Whether a path yields a cell does not depend on which decoded entries
      the cache has gained meanwhile. */
  lemma {:induction false} CellsOfStable(q: seq<Task>, a: map<Path, Handle>, b: map<Path, Handle>, decode: Decoder)
    requires CacheExtends(a, b, decode)
    ensures CellsOf(q, a, decode) == CellsOf(q, b, decode)
  {
    if q != [] {
      CellsOfStable(q[1..], a, b, decode);
      if q[0].AddImageTask? {
        var p := q[0].path;
        assert Displayable(p, a, decode) == Displayable(p, b, decode);
      }
    }
  }

  /** One pass creates a cell for every queued label task and for every
      queued add task whose path is cached or decodes: the label tasks that
      add tasks queue during the pass run in the same pass. */
  lemma {:induction false} ProcessQueueCellCount(s: State, decode: Decoder)
    ensures var r := ProcessQueue(s, decode);
      && |r.labels| == |s.labels| + CellsOf(s.queue, s.cache, decode)
      && |r.images| == |s.images| + CellsOf(s.queue, s.cache, decode)
    decreases Weight(s.queue)
  {
    if s.queue != [] {
      var t := Step(s, decode);
      StepWeight(s, decode);
      ProcessQueueCellCount(t, decode);
      var rest := s.queue[1..];
      match s.queue[0]
      case CreateLabelTask(_, _) =>
        CellsOfStable(rest, s.cache, t.cache, decode);
      case AddImageTask(p) =>
        AddImageCases(s.(queue := rest), p, decode);
        CellsOfStable(rest, s.cache, t.cache, decode);
        if Displayable(p, s.cache, decode) {
          var h := t.cache[p];
          assert t.queue == rest + [CreateLabelTask(h, p)];
          CellsOfAppend(rest, CreateLabelTask(h, p), t.cache, decode);
        }
    }
  }

  /** A pass keeps the cell lists aligned, the grid row-major, the paths
      and the file as they were, and only extends the cache with decoded
      entries. */
  lemma {:induction false} ProcessQueuePreserves(s: State, decode: Decoder)
    ensures var r := ProcessQueue(s, decode);
      && (Aligned(s) ==> Aligned(r))
      && (RowMajor(s.labels) ==> RowMajor(r.labels))
      && CacheExtends(s.cache, r.cache, decode)
      && r.paths == s.paths && r.saved == s.saved
      && |s.labels| <= |r.labels| && |s.images| <= |r.images|
      && r.labels[..|s.labels|] == s.labels && r.images[..|s.images|] == s.images
    decreases Weight(s.queue)
  {
    if s.queue != [] {
      var t := Step(s, decode);
      StepWeight(s, decode);
      ProcessQueuePreserves(t, decode);
      var r := ProcessQueue(t, decode);
      var u := s.(queue := s.queue[1..]);
      match s.queue[0]
      case AddImageTask(p) =>
        AddImageCases(u, p, decode);
      case CreateLabelTask(h, p) =>
        CreateImageLabelPlacement(u, h, p);
        assert r.labels[..|s.labels|] == r.labels[..|t.labels|][..|s.labels|];
        assert r.images[..|s.images|] == r.images[..|t.images|][..|s.images|];
      CacheExtendsTransitive(s.cache, t.cache, r.cache, decode);
    }
  }

  // ---------------------------------------------------------------------
  // Scenarios

  /** Fresh start with no file: the gallery is empty and stays empty. */
  lemma FreshStartIsEmpty(decode: Decoder)
    ensures var r := ProcessQueue(LoadSavedImages(Fresh(None)), decode);
      r.images == [] && r.labels == [] && r.paths == [] && r.saved == None
  {
  }

  /** Two images that decode fill row 0, columns 0 and 1, and the file
      lists both. */
  lemma {:induction false} TwoValidImages(a: Path, b: Path, decode: Decoder)
    requires decode(a).Some? && decode(b).Some?
    ensures var r := ProcessQueue(AddImages(LoadSavedImages(Fresh(None)), [a, b]), decode);
      && r.labels == [Label(0, 0, decode(a).value, a), Label(0, 1, decode(b).value, b)]
      && r.images == [decode(a).value, decode(b).value]
      && r.paths == [a, b] && r.saved == Some([a, b])
  {
    var s0 := AddImages(Fresh(None), [a, b]);
    assert s0.queue == [AddImageTask(a), AddImageTask(b)];
    var s1 := Step(s0, decode);
    var s2 := Step(s1, decode);
    assert s2.queue == [CreateLabelTask(decode(a).value, a), CreateLabelTask(decode(b).value, b)];
    var s3 := Step(s2, decode);
    var s4 := Step(s3, decode);
    assert s4.queue == [];
    StepWeight(s0, decode);
    StepWeight(s1, decode);
    StepWeight(s2, decode);
    StepWeight(s3, decode);
    assert ProcessQueue(s3, decode) == s4;
    assert ProcessQueue(s2, decode) == s4;
    assert ProcessQueue(s1, decode) == s4;
  }

  /** One image that decodes and one that does not: exactly one cell
      appears, yet both paths stay in the list and in the file. */
  lemma {:induction false} ValidAndMissingImage(a: Path, b: Path, decode: Decoder)
    requires decode(a).Some? && decode(b).None?
    ensures var r := ProcessQueue(AddImages(LoadSavedImages(Fresh(None)), [a, b]), decode);
      && r.labels == [Label(0, 0, decode(a).value, a)]
      && r.images == [decode(a).value]
      && r.paths == [a, b] && r.saved == Some([a, b])
  {
    var s0 := AddImages(Fresh(None), [a, b]);
    assert s0.queue == [AddImageTask(a), AddImageTask(b)];
    var s1 := Step(s0, decode);
    var s2 := Step(s1, decode);
    assert s2.queue == [CreateLabelTask(decode(a).value, a)];
    var s3 := Step(s2, decode);
    assert s3.queue == [];
    StepWeight(s0, decode);
    StepWeight(s1, decode);
    StepWeight(s2, decode);
    assert ProcessQueue(s2, decode) == s3;
    assert ProcessQueue(s1, decode) == s3;
  }

  // ---------------------------------------------------------------------
  // Alignment hazards

  /** A path that fails to decode still joins the list and the file, so
      `image_paths` runs one ahead of `images`. */
  lemma {:induction false} FailedDecodeMisaligns(s: State, p: Path, decode: Decoder)
    requires s.queue == [] && !Displayable(p, s.cache, decode)
    ensures var r := ProcessQueue(AddImages(s, [p]), decode);
      && r.paths == s.paths + [p] && r.saved == Some(r.paths)
      && r.images == s.images && r.labels == s.labels && r.cache == s.cache
      && |r.paths| - |r.images| == |s.paths| - |s.images| + 1
  {
  }

  /** With `a` undecodable, adding `[a, b, c]` leaves cells for `b` and
      `c` at indices 0 and 1 while `b` is at index 1 of the paths: deleting
      `b` removes the entries of the cell showing `c`. */
  lemma {:induction false} DeleteAfterFailedDecodeRemovesWrongCell(a: Path, b: Path, c: Path, decode: Decoder)
    requires decode(a).None? && decode(b).Some? && decode(c).Some? && a != b && b != c
    ensures var s := ProcessQueue(AddImages(LoadSavedImages(Fresh(None)), [a, b, c]), decode);
      var hb, hc := decode(b).value, decode(c).value;
      var r := DeleteImage(s, b);
      && s.images == [hb, hc] && s.labels == [Label(0, 0, hb, b), Label(0, 1, hc, c)]
      && s.paths == [a, b, c]
      && DeleteOutcome(s, b) == Deleted
      && r.paths == [a, c]
      && r.images == [hb] && r.labels == [Label(0, 0, hb, b)]
  {
    var hb, hc := decode(b).value, decode(c).value;
    var s := DrainAfterFailedDecode(a, b, c, decode);
    assert [a, b, c][1..] == [b, c];
    assert IndexOf([b, c], b) == Some(0);
    assert IndexOf(s.paths, b) == Some(1);
    assert RemoveFirst([b, c], b) == [c];
    assert RemoveFirst(s.paths, b) == [a, c];
    assert RemoveAt(s.images, 1) == [hb];
    assert RemoveAt(s.labels, 1) == [Label(0, 0, hb, b)];
  }

  /** The drain of `[a, b, c]` from a fresh start, with `a` undecodable:
      label tasks for `b` and `c` are queued behind the add task of `c`
      and all run in the same pass. */
  lemma {:induction false} DrainAfterFailedDecode(a: Path, b: Path, c: Path, decode: Decoder) returns (s: State)
    requires decode(a).None? && decode(b).Some? && decode(c).Some?
    ensures s == ProcessQueue(AddImages(LoadSavedImages(Fresh(None)), [a, b, c]), decode)
    ensures s.images == [decode(b).value, decode(c).value]
    ensures s.labels == [Label(0, 0, decode(b).value, b), Label(0, 1, decode(c).value, c)]
    ensures s.paths == [a, b, c]
  {
    var hb, hc := decode(b).value, decode(c).value;
    var s0 := AddImages(Fresh(None), [a, b, c]);
    assert s0.queue == [AddImageTask(a), AddImageTask(b), AddImageTask(c)];
    var s1 := Step(s0, decode);
    assert s1.queue == [AddImageTask(b), AddImageTask(c)];
    var s2 := Step(s1, decode);
    assert s2.queue == [AddImageTask(c), CreateLabelTask(hb, b)];
    var s3 := Step(s2, decode);
    assert s3.queue == [CreateLabelTask(hb, b), CreateLabelTask(hc, c)];
    assert s3.labels == [] && s3.paths == [a, b, c];
    var s4 := Step(s3, decode);
    assert s4.queue == [CreateLabelTask(hc, c)];
    assert s4.labels == [Label(0, 0, hb, b)];
    s := Step(s4, decode);
    assert s.queue == [];
    StepWeight(s0, decode);
    StepWeight(s1, decode);
    StepWeight(s2, decode);
    StepWeight(s3, decode);
    StepWeight(s4, decode);
    assert ProcessQueue(s4, decode) == s;
    assert ProcessQueue(s3, decode) == s;
    assert ProcessQueue(s2, decode) == s;
    assert ProcessQueue(s1, decode) == s;
  }

  /** After deleting any cell but the last, the next cell is placed by the
      shrunken count, on the position the old last cell still holds. */
  lemma {:induction false} DeleteThenCreateOverlaps(s: State, p: Path, h: Handle, d: Path)
    requires Aligned(s) && RowMajor(s.labels) && DeleteOutcome(s, p) == Deleted
    requires IndexOf(s.paths, p).value < |s.labels| - 1
    ensures var r := CreateImageLabel(DeleteImage(s, p), h, d);
      var n := |s.labels|;
      && n >= 2 && |r.labels| == n
      && (r.labels[n - 1].row, r.labels[n - 1].col) == (r.labels[n - 2].row, r.labels[n - 2].col)
      && !RowMajor(r.labels)
  {
    var e := DeleteImage(s, p);
    var n := |s.labels|;
    DeleteShiftsLastCell(s, p);
    var r := CreateImageLabel(e, h, d);
    CreateImageLabelPlacement(e, h, d);
    assert r.labels[n - 2] == s.labels[n - 1];
    assert (r.labels[n - 2].row, r.labels[n - 2].col) == GridPosition(n - 1);
    SharedPositionNotRowMajor(r.labels, n - 2, n - 1);
  }

  /** Deleting a cell before the last shifts the old last cell down by one
      index. */
  lemma DeleteShiftsLastCell(s: State, p: Path)
    requires DeleteOutcome(s, p) == Deleted
    requires IndexOf(s.paths, p).value < |s.labels| - 1
    ensures |DeleteImage(s, p).labels| == |s.labels| - 1
    ensures DeleteImage(s, p).labels[|s.labels| - 2] == s.labels[|s.labels| - 1]
  {
    var i := IndexOf(s.paths, p).value;
    assert DeleteImage(s, p).labels == RemoveAt(s.labels, i);
  }

  /** Two cells on the same grid position rule out a row-major layout. */
  lemma SharedPositionNotRowMajor(labels: seq<Label>, i: nat, j: nat)
    requires i < |labels| && j < |labels| && i != j
    requires (labels[i].row, labels[i].col) == (labels[j].row, labels[j].col)
    ensures !RowMajor(labels)
  {
    if RowMajor(labels) {
      RowMajorCellsDistinct(labels, i, j);
    }
  }

  /** Deleting the last cell and then adding one keeps the grid row-major:
      the new cell takes the freed position. */
  lemma {:induction false} DeleteLastThenCreateKeepsRowMajor(s: State, p: Path, h: Handle, d: Path)
    requires Aligned(s) && RowMajor(s.labels) && DeleteOutcome(s, p) == Deleted
    requires IndexOf(s.paths, p).value == |s.labels| - 1
    ensures RowMajor(CreateImageLabel(DeleteImage(s, p), h, d).labels)
  {
    DeleteImageFirstOccurrence(s, p);
  }

  /** With `a` undecodable, adding `[a, b]` leaves one cell for `b` at
      index 0 while `b` is at index 1 of the paths: deleting `b` raises
      IndexError, changes nothing, and `b` comes back on the next start. */
  lemma {:induction false} FailedDecodeBlocksDelete(a: Path, b: Path, decode: Decoder)
    requires decode(a).None? && decode(b).Some?
    ensures var s := ProcessQueue(AddImages(LoadSavedImages(Fresh(None)), [a, b]), decode);
      && s.images == [decode(b).value] && s.paths == [a, b]
      && DeleteOutcome(s, b) == ImageIndexOutOfRange
      && DeleteImage(s, b) == s
      && b in LoadSavedImages(DeleteImage(s, b)).paths
  {
    var s0 := AddImages(Fresh(None), [a, b]);
    assert s0.queue == [AddImageTask(a), AddImageTask(b)];
    var s1 := Step(s0, decode);
    var s2 := Step(s1, decode);
    assert s2.queue == [CreateLabelTask(decode(b).value, b)];
    var s3 := Step(s2, decode);
    assert s3.queue == [];
    StepWeight(s0, decode);
    StepWeight(s1, decode);
    StepWeight(s2, decode);
    assert ProcessQueue(s2, decode) == s3;
    assert ProcessQueue(s1, decode) == s3;
    assert s3.paths == [a, b];
    assert [a, b][1..] == [b];
    assert IndexOf([b], b) == Some(0);
    assert IndexOf(s3.paths, b) == Some(1);
  }
}

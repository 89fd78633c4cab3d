/** `ImageApp` as a class whose fields its methods update in place. Each
    method is proved to leave the state the matching function of module
    Gallery describes, and to keep the invariants proved there. */
module App {
  import opened Lists
  import G = Gallery
  import P = GalleryProperties

  class ImageApp {
    var images: seq<G.Handle>
    var imageLabels: seq<G.Label>
    var imagePaths: seq<G.Path>
    var imageCache: map<G.Path, G.Handle>
    var queue: seq<G.Task>
    /** The contents of `image_paths.json`; `None` while it does not exist. */
    var savedPaths: Option<seq<G.Path>>

    function Snapshot(): G.State
      reads this
    {
      G.State(images, imageLabels, imagePaths, imageCache, queue, savedPaths)
    }

    /** Cells and images are index-aligned and the file mirrors the list. */
    predicate Valid()
      reads this
    {
      G.Aligned(Snapshot()) && G.Synced(Snapshot())
    }

    /** `__init__`: empty lists and cache, then `load_saved_images`. */
    constructor (saved: Option<seq<G.Path>>)
      ensures Snapshot() == G.LoadSavedImages(G.Fresh(saved))
      ensures Valid() && G.RowMajor(imageLabels)
    {
      images := [];
      imageLabels := [];
      imagePaths := [];
      imageCache := map[];
      queue := [];
      savedPaths := saved;
      new;
      LoadSavedImages();
      P.InitialState(saved);
    }

    /** `save_image_paths`. */
    method SaveImagePaths()
      modifies this
      ensures Snapshot() == G.SaveImagePaths(old(Snapshot()))
      ensures savedPaths == Some(imagePaths)
      ensures old(Valid()) ==> Valid()
    {
      savedPaths := Some(imagePaths);
    }

    /** `load_saved_images`. */
    method LoadSavedImages()
      modifies this
      ensures Snapshot() == G.LoadSavedImages(old(Snapshot()))
      ensures old(Valid()) ==> Valid()
    {
      ghost var s := Snapshot();
      if savedPaths.Some? {
        imagePaths := savedPaths.value;
        var i := 0;
        while i < |imagePaths|
          invariant 0 <= i <= |imagePaths|
          invariant imagePaths == s.saved.value
          invariant Snapshot() == s.(paths := imagePaths, queue := s.queue + G.AddTasks(imagePaths[..i]))
        {
          assert imagePaths[..i + 1][..i] == imagePaths[..i];
          queue := queue + [G.AddImageTask(imagePaths[i])];
          i := i + 1;
        }
        assert imagePaths[..i] == imagePaths;
      }
      P.LoadSavedImagesKeepsInvariants(s);
    }

    /** `add_images`: per path, queue its add task, append it and save. */
    method AddImages(filePaths: seq<G.Path>)
      modifies this
      ensures Snapshot() == G.AddImages(old(Snapshot()), filePaths)
      ensures old(Valid()) ==> Valid()
    {
      ghost var s := Snapshot();
      var i := 0;
      while i < |filePaths|
        invariant 0 <= i <= |filePaths|
        invariant images == s.images && imageLabels == s.labels && imageCache == s.cache
        invariant queue == s.queue + G.AddTasks(filePaths[..i])
        invariant imagePaths == s.paths + filePaths[..i]
        invariant savedPaths == if i == 0 then s.saved else Some(imagePaths)
      {
        assert filePaths[..i + 1][..i] == filePaths[..i];
        assert filePaths[..i + 1] == filePaths[..i] + [filePaths[i]];
        queue := queue + [G.AddImageTask(filePaths[i])];
        imagePaths := imagePaths + [filePaths[i]];
        SaveImagePaths();
        i := i + 1;
      }
      assert filePaths[..i] == filePaths;
      P.AddImagesKeepsInvariants(s, filePaths);
    }

    /** `add_image`: look the path up in the cache, decoding on a miss;
        on success queue the task that creates its cell. */
    method AddImage(filePath: G.Path, decode: G.Decoder)
      modifies this
      ensures Snapshot() == G.AddImage(old(Snapshot()), filePath, decode)
      ensures old(Valid()) ==> Valid()
    {
      P.AddImageKeepsInvariants(Snapshot(), filePath, decode);
      var img: G.Handle;
      if filePath in imageCache {
        img := imageCache[filePath];
      } else {
        var decoded := decode(filePath);
        if decoded.None? {
          return;
        }
        img := decoded.value;
        imageCache := imageCache[filePath := img];
      }
      queue := queue + [G.CreateLabelTask(img, filePath)];
    }

    /** `create_image_label`: place the cell at `divmod(len(labels), 5)`. */
    method CreateImageLabel(img: G.Handle, filePath: G.Path)
      modifies this
      ensures Snapshot() == G.CreateImageLabel(old(Snapshot()), img, filePath)
      ensures old(Valid()) ==> Valid()
      ensures old(G.RowMajor(imageLabels)) ==> G.RowMajor(imageLabels)
    {
      ghost var s := Snapshot();
      var (row, col) := G.GridPosition(|imageLabels|);
      images := images + [img];
      imageLabels := imageLabels + [G.Label(row, col, img, filePath)];
      P.CreateImageLabelPlacement(s, img, filePath);
    }

    /** `delete_image`: find the first index of the path, drop that index
        from both cell lists, remove the path and save. The status reports
        the exception the source raises instead, with the fields it had
        already changed by then. */
    method DeleteImage(filePath: G.Path) returns (status: G.DeleteStatus)
      modifies this
      ensures status == G.DeleteOutcome(old(Snapshot()), filePath)
      ensures Snapshot() == G.DeleteImage(old(Snapshot()), filePath)
      ensures old(Valid()) ==> Valid() && status != G.LabelIndexOutOfRange
    {
      ghost var s := Snapshot();
      var found := IndexOf(imagePaths, filePath);
      if found.None? {
        return G.PathNotFound;
      }
      var index := found.value;
      if index >= |images| {
        return G.ImageIndexOutOfRange;
      }
      images := RemoveAt(images, index);
      if index >= |imageLabels| {
        return G.LabelIndexOutOfRange;
      }
      imageLabels := RemoveAt(imageLabels, index);
      imagePaths := RemoveFirst(imagePaths, filePath);
      SaveImagePaths();
      status := G.Deleted;
      if G.Aligned(s) {
        P.DeleteImageFirstOccurrence(s, filePath);
      }
    }

    /** Call the closure a task stands for. */
    method RunTask(task: G.Task, decode: G.Decoder)
      modifies this
      ensures Snapshot() == G.RunTask(old(Snapshot()), task, decode)
      ensures old(Valid()) ==> Valid()
    {
      match task
      case AddImageTask(p) => AddImage(p, decode);
      case CreateLabelTask(h, p) => CreateImageLabel(h, p);
    }

    /** `process_queue`: one drain pass; the 100 ms rescheduling is not
        modelled. */
    method ProcessQueue(decode: G.Decoder)
      modifies this
      ensures Snapshot() == G.ProcessQueue(old(Snapshot()), decode)
      ensures queue == []
      ensures old(Valid()) ==> Valid()
      ensures old(G.RowMajor(imageLabels)) ==> G.RowMajor(imageLabels)
    {
      ghost var s := Snapshot();
      while queue != []
        invariant G.ProcessQueue(Snapshot(), decode) == G.ProcessQueue(s, decode)
        decreases G.Weight(queue)
      {
        ghost var before := Snapshot();
        var task := queue[0];
        queue := queue[1..];
        RunTask(task, decode);
        G.StepWeight(before, decode);
      }
      P.ProcessQueuePreserves(s, decode);
    }
  }
}

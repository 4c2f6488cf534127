/** The pending holding area of app.py: `save_image_to_pending` writes an image's bytes to
    `pending/<filename>` (opened with 'wb', so an earlier file of that name is replaced),
    and `get_order_data` writes every image of the request there when the order call runs
    out of quota. The directory is a map from path to file contents. */
module Pending {
  import opened Retry

  datatype Image = Image(filename: string, data: seq<bv8>)

  /** The file an image is saved to. */
  function PendingPath(filename: string): string
  {
    "pending/" + filename
  }

  /** The directory after saving `images` one after the other. */
  function SaveAll(files: map<string, seq<bv8>>, images: seq<Image>): map<string, seq<bv8>>
    decreases |images|
  {
    if images == [] then files
    else
      var last := images[|images| - 1];
      SaveAll(files, images[..|images| - 1])[PendingPath(last.filename) := last.data]
  }

  /** The paths written when all of `images` are saved. */
  function PathsOf(images: seq<Image>): set<string>
  {
    set i | 0 <= i < |images| :: PendingPath(images[i].filename)
  }

  /** `except ResourceExhaustedError` in `get_order_data`: only that error defers. */
  predicate Defers<T>(result: Result<T>)
  {
    result.Raised? && result.failure.ResourceExhaustedError?
  }

  class PendingArea {
    /** The contents of the pending directory, by path. */
    var files: map<string, seq<bv8>>

    constructor (initial: map<string, seq<bv8>>)
      ensures files == initial
    {
      files := initial;
    }

    /** `save_image_to_pending(image)`. */
    method SaveImageToPending(image: Image)
      modifies this
      ensures files == old(files)[PendingPath(image.filename) := image.data]
    {
      files := files[PendingPath(image.filename) := image.data];
    }

    /** `for image in images: save_image_to_pending(image)`. */
    method SaveImagesToPending(images: seq<Image>)
      modifies this
      ensures files == SaveAll(old(files), images)
    {
      for i := 0 to |images|
        invariant files == SaveAll(old(files), images[..i])
      {
        SaveImageToPending(images[i]);
        assert images[..i + 1][..i] == images[..i];
      }
      assert images[..|images|] == images;
    }

    /** The `try`/`except` of `get_order_data`: when the order call ends in
        ResourceExhaustedError every image of the request is saved; on success or any
        other error the directory is left alone. */
    method DeferOnExhaustion<T>(images: seq<Image>, result: Result<T>)
      modifies this
      ensures files == if Defers(result) then SaveAll(old(files), images) else old(files)
    {
      if Defers(result) {
        SaveImagesToPending(images);
      }
    }
  }

  /** Distinct file names give distinct paths: the "pending/" prefix loses nothing. */
  lemma PendingPathInjective(a: string, b: string)
    ensures PendingPath(a) == PendingPath(b) <==> a == b
  {
    if PendingPath(a) == PendingPath(b) {
      assert a == PendingPath(a)[8..];
      assert b == PendingPath(b)[8..];
    }
  }

  /** Saving a batch creates exactly one path per file name of the batch, every one of
      them, and no other. */
  lemma {:induction false} SaveAllPaths(files: map<string, seq<bv8>>, images: seq<Image>)
    ensures SaveAll(files, images).Keys == files.Keys + PathsOf(images)
    decreases |images|
  {
    if images != [] {
      var init := images[..|images| - 1];
      SaveAllPaths(files, init);
      assert PathsOf(images) == PathsOf(init) + {PendingPath(images[|images| - 1].filename)} by {
        forall p | p in PathsOf(images) ensures p in PathsOf(init) + {PendingPath(images[|images| - 1].filename)} {
          var i :| 0 <= i < |images| && p == PendingPath(images[i].filename);
          if i < |init| { assert init[i] == images[i]; }
        }
        forall p | p in PathsOf(init) ensures p in PathsOf(images) {
          var i :| 0 <= i < |init| && p == PendingPath(init[i].filename);
          assert images[i] == init[i];
        }
      }
    }
  }

  /** A file outside the batch's paths keeps its contents. */
  lemma {:induction false} SaveAllLeavesOthers(files: map<string, seq<bv8>>, images: seq<Image>, path: string)
    requires path in files && path !in PathsOf(images)
    ensures path in SaveAll(files, images) && SaveAll(files, images)[path] == files[path]
    decreases |images|
  {
    if images != [] {
      var init := images[..|images| - 1];
      assert forall k :: 0 <= k < |init| ==> init[k] == images[k];
      assert path != PendingPath(images[|images| - 1].filename);
      SaveAllLeavesOthers(files, init, path);
    }
  }

  /** Each image's file holds the bytes of the last image of the batch with that name:
      a later image of the same name overwrites an earlier one. */
  lemma {:induction false} SaveAllLastWins(files: map<string, seq<bv8>>, images: seq<Image>, i: nat)
    requires i < |images|
    requires forall j :: i < j < |images| ==> images[j].filename != images[i].filename
    ensures PendingPath(images[i].filename) in SaveAll(files, images)
    ensures SaveAll(files, images)[PendingPath(images[i].filename)] == images[i].data
    decreases |images|
  {
    var n := |images| - 1;
    if i < n {
      var init := images[..n];
      assert init[i] == images[i];
      forall j | i < j < |init| ensures init[j].filename != init[i].filename {
        assert init[j] == images[j];
      }
      SaveAllLastWins(files, init, i);
      PendingPathInjective(images[n].filename, images[i].filename);
    }
  }
}

/** Queueing a race's background images with the scene's asset loader: the
    base path is cleared, every image is queued under its own file name with
    a URL on the level server, and the loader is started. */
module BackgroundImages {

  /** The level whose directory holds the non-stamp images. */
  const LevelId: string := "6497061"

  /** Root of the level server. */
  const Server: string := "https://dev-levels.platformracing.com/pr2/"

  /** Directory of stamp images (files whose name contains ".png"). */
  const StampsPath: string := Server + "stamps"

  /** Directory of the level's other images. */
  const LevelPath: string := Server + "levels/" + LevelId

  /** One entry of the level's background image list; `image` is the file name. */
  datatype ImageDescriptor = ImageDescriptor(image: string)

  /** A call made on the scene's loader: `setPath`, `image(key, url)`, `start`. */
  datatype LoaderCall = SetPathCall(path: string) | ImageCall(key: string, url: string) | StartCall

  // ---------------------------------------------------------------------------
  // Substring search

  /** `p` occurs in `s` starting at position `j`. */
  predicate OccursAt(s: string, p: string, j: int) {
    0 <= j && j + |p| <= |s| && s[j..j + |p|] == p
  }

  /** First position at or after `k` where `p` occurs in `s`, or -1. */
  function IndexFrom(s: string, p: string, k: nat): (r: int)
    requires k <= |s|
    ensures r == -1 || (k <= r && OccursAt(s, p, r))
    ensures r == -1 ==> forall j :: k <= j ==> !OccursAt(s, p, j)
    ensures r != -1 ==> forall j :: k <= j < r ==> !OccursAt(s, p, j)
    decreases |s| - k
  {
    if OccursAt(s, p, k) then k
    else if k == |s| then -1
    else IndexFrom(s, p, k + 1)
  }

  /** `s.indexOf(p)`: the first position where `p` occurs, -1 when it does
      not occur at all. */
  function IndexOf(s: string, p: string): (r: int)
    ensures r == -1 <==> forall j :: !OccursAt(s, p, j)
    ensures r != -1 ==> OccursAt(s, p, r) && forall j :: 0 <= j < r ==> !OccursAt(s, p, j)
  {
    IndexFrom(s, p, 0)
  }

  // ---------------------------------------------------------------------------
  // URLs

  /** The URL an image file is fetched from: the stamps directory when the
      name contains ".png" anywhere, the level's directory otherwise. */
  function ImageUrl(file: string): string {
    var path := if IndexOf(file, ".png") != -1 then StampsPath else LevelPath;
    path + "/" + file
  }

  /** Which directory an image comes from is decided by an occurrence of
      ".png" anywhere in its name. */
  lemma UrlDirectory(file: string)
    ensures (exists j :: OccursAt(file, ".png", j)) ==> ImageUrl(file) == StampsPath + "/" + file
    ensures (forall j :: !OccursAt(file, ".png", j)) ==> ImageUrl(file) == LevelPath + "/" + file
  {
  }

  /** Every URL lies on the level server and ends with "/" and the file name. */
  lemma UrlEndsWithFile(file: string)
    ensures var url := ImageUrl(file);
            && |url| > |file|
            && url[..|Server|] == Server
            && url[|url| - |file| - 1..] == "/" + file
  {
    var url := ImageUrl(file);
    var path := if IndexOf(file, ".png") != -1 then StampsPath else LevelPath;
    assert url == path + ("/" + file);
    assert path[..|Server|] == Server;
  }

  /** A name containing ".png" anywhere, not only at the end, is a stamp. */
  lemma StampExample()
    ensures ImageUrl("tree.png.old") == StampsPath + "/tree.png.old"
  {
    assert OccursAt("tree.png.old", ".png", 4);
  }

  // ---------------------------------------------------------------------------
  // The load queue

  /** The `image` calls for a list of images, in list order. */
  function QueuedImages(images: seq<ImageDescriptor>): (calls: seq<LoaderCall>)
    ensures |calls| == |images|
    decreases |images|
  {
    if images == [] then []
    else
      var last := images[|images| - 1];
      QueuedImages(images[..|images| - 1]) + [ImageCall(last.image, ImageUrl(last.image))]
  }

  /** One call per image, in list order, keyed by the file name and fetched
      from the image's URL. */
  lemma {:induction false} QueuedImagesInOrder(images: seq<ImageDescriptor>)
    ensures |QueuedImages(images)| == |images|
    ensures forall i :: 0 <= i < |images| ==>
              QueuedImages(images)[i] == ImageCall(images[i].image, ImageUrl(images[i].image))
    decreases |images|
  {
    if images != [] {
      var prefix, last := images[..|images| - 1], images[|images| - 1];
      QueuedImagesInOrder(prefix);
      var calls := QueuedImages(images);
      assert calls == QueuedImages(prefix) + [ImageCall(last.image, ImageUrl(last.image))];
      forall i | 0 <= i < |images|
        ensures calls[i] == ImageCall(images[i].image, ImageUrl(images[i].image))
      {
        if i < |prefix| {
          assert prefix[i] == images[i];
        }
      }
    }
  }

  /** Queueing one more image appends its call. */
  lemma QueuedStep(images: seq<ImageDescriptor>, i: nat)
    requires i < |images|
    ensures QueuedImages(images[..i + 1]) ==
              QueuedImages(images[..i]) + [ImageCall(images[i].image, ImageUrl(images[i].image))]
  {
    assert images[..i + 1][..i] == images[..i];
  }

  /** The whole series of loader calls for a list of images. */
  function LoadCalls(images: seq<ImageDescriptor>): (calls: seq<LoaderCall>)
    ensures |calls| == |images| + 2
    ensures calls[0] == SetPathCall("") && calls[|calls| - 1] == StartCall
  {
    [SetPathCall("")] + QueuedImages(images) + [StartCall]
  }

  /** Queueing makes image calls only. */
  lemma QueuedOnlyImages(images: seq<ImageDescriptor>)
    ensures |QueuedImages(images)| == |images|
    ensures forall i :: 0 <= i < |images| ==> QueuedImages(images)[i].ImageCall?
  {
    QueuedImagesInOrder(images);
  }

  /** The path is cleared first and only then, the images are queued in
      between, and the loader is started exactly once, at the end, even for an
      empty list. */
  lemma LoadCallsOrder(images: seq<ImageDescriptor>)
    ensures |LoadCalls(images)| == |images| + 2
    ensures LoadCalls(images)[0] == SetPathCall("")
    ensures LoadCalls(images)[|images| + 1] == StartCall
    ensures LoadCalls(images)[1..|images| + 1] == QueuedImages(images)
    ensures forall i :: 0 <= i < |images| + 2 && LoadCalls(images)[i] == StartCall ==> i == |images| + 1
    ensures forall i :: 0 <= i < |images| + 2 && LoadCalls(images)[i].SetPathCall? ==> i == 0
  {
    var calls, queued := LoadCalls(images), QueuedImages(images);
    QueuedOnlyImages(images);
    assert calls == [SetPathCall("")] + queued + [StartCall];
    forall i | 1 <= i <= |images|
      ensures calls[i].ImageCall?
    {
      assert calls[i] == queued[i - 1];
    }
    assert calls[1..|images| + 1] == queued;
  }

  /** The scene's asset loader, as far as queueing goes. */
  class Loader {
    /** Base path prepended to relative URLs. */
    var path: string
    /** Calls made so far, oldest first. */
    var calls: seq<LoaderCall>

    constructor ()
      ensures path == "" && calls == []
    {
      path := "";
      calls := [];
    }

    method SetPath(p: string)
      modifies this
      ensures path == p && calls == old(calls) + [SetPathCall(p)]
    {
      path := p;
      calls := calls + [SetPathCall(p)];
    }

    method Image(key: string, url: string)
      modifies this`calls
      ensures calls == old(calls) + [ImageCall(key, url)]
    {
      calls := calls + [ImageCall(key, url)];
    }

    method Start()
      modifies this`calls
      ensures calls == old(calls) + [StartCall]
    {
      calls := calls + [StartCall];
    }
  }

  /** The `forEach` callback: queues one image under its file name. */
  method QueueImage(load: Loader, image: ImageDescriptor)
    modifies load`calls
    ensures load.calls == old(load.calls) + [ImageCall(image.image, ImageUrl(image.image))]
  {
    var path;
    if IndexOf(image.image, ".png") != -1 {
      path := StampsPath;
    } else {
      path := LevelPath;
    }
    load.Image(image.image, path + "/" + image.image);
  }

  /** `loadBGImages(scene, images)` with `scene.load` as `load`. */
  method LoadBGImages(load: Loader, images: seq<ImageDescriptor>)
    modifies load
    ensures load.path == ""
    ensures load.calls == old(load.calls) + LoadCalls(images)
  {
    load.SetPath("");
    var i := 0;
    while i < |images|
      invariant 0 <= i <= |images|
      invariant load.path == ""
      invariant load.calls == old(load.calls) + [SetPathCall("")] + QueuedImages(images[..i])
    {
      QueueImage(load, images[i]);
      QueuedStep(images, i);
      i := i + 1;
    }
    assert images[..i] == images;
    load.Start();
  }
}

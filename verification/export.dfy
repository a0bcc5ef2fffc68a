/** The composite exporter. Each photo of the reel is decoded again; the
    decodes complete in any order, each completion draws its photo at the
    place fixed by the photo's reel index, and a counter of completions
    triggers the download when it reaches the number of photos. */
module Export {
  import Filters
  import opened Reel
  import Captions
  import Layout
  import Filename

  /** Everything drawn for one photo: its index, its image at the photo's
      top offset, and its composite caption at the caption anchor. */
  datatype Draw = Draw(index: nat, image: DataUrl, top: int, caption: string, anchor: Layout.Point)

  /** A triggered download: its file name, the canvas size, the drawings on
      the canvas when it was encoded, and how many completions had been
      counted then. */
  datatype Download = Download(name: string, width: int, height: int, canvas: set<Draw>, atCount: nat)

  /** The exporter's state: the completion counter, the drawings in paint
      order, and the downloads triggered so far. */
  datatype Barrier = Barrier(loaded: nat, painted: seq<Draw>, downloads: seq<Download>)

  /** The export when the button is clicked: nothing for an empty reel. */
  datatype Outcome = NothingToExport | Exported(barrier: Barrier)

  function DrawFor(photos: seq<Photo>, i: nat): (d: Draw)
    requires i < |photos|
    ensures d.index == i && d.image == photos[i].dataUrl
    ensures d.top == 10 + 500 * i
    ensures d.anchor == Layout.Point(15, d.top + 495)
    ensures photos[i].filter != Filters.NoFilter ==>
              d.caption == photos[i].timestamp + Captions.ReelSuffix(photos[i].filter)
    ensures photos[i].filter == Filters.NoFilter ==> d.caption == photos[i].timestamp + " "
  {
    Draw(i, photos[i].dataUrl, Layout.PhotoTop(i), Captions.CompositeCaption(photos[i]),
         Layout.CaptionAnchor(i))
  }

  /** The set of drawings in a paint sequence. */
  function Canvas(painted: seq<Draw>): set<Draw>
  {
    set d | d in painted
  }

  /** The finished composite: every photo drawn at its own index. */
  function AllDraws(photos: seq<Photo>): set<Draw>
  {
    set i | 0 <= i < |photos| :: DrawFor(photos, i)
  }

  /** The download of a reel's canvas holding `canvas`, encoded when the
      completion counter reads `count`. */
  function Encode(photos: seq<Photo>, canvas: set<Draw>, count: nat, iso: string): (d: Download)
    ensures d.width == 660 && d.height == 500 * |photos|
    ensures d.name == Filename.DownloadName(iso) && d.canvas == canvas && d.atCount == count
  {
    Download(Filename.DownloadName(iso), Layout.CanvasWidth(), Layout.CanvasHeight(|photos|), canvas, count)
  }

  /** The load handler of the photo at index `i`: draw it, count it, and
      trigger the download when the count equals the number of photos. */
  function OnLoad(photos: seq<Photo>, b: Barrier, i: nat, iso: string): (r: Barrier)
    requires i < |photos|
    ensures r.loaded == b.loaded + 1
    ensures r.painted == b.painted + [DrawFor(photos, i)]
    ensures |r.downloads| == |b.downloads| + 1 <==> b.loaded + 1 == |photos|
    ensures b.loaded + 1 != |photos| ==> r.downloads == b.downloads
    ensures b.loaded + 1 == |photos| ==>
              r.downloads == b.downloads + [Encode(photos, Canvas(r.painted), b.loaded + 1, iso)]
  {
    var painted := b.painted + [DrawFor(photos, i)];
    var loaded := b.loaded + 1;
    var downloads :=
      if loaded == |photos| then b.downloads + [Encode(photos, Canvas(painted), loaded, iso)]
      else b.downloads;
    Barrier(loaded, painted, downloads)
  }

  /** The completions of a decode race: reel indices, in completion order. */
  predicate InRange(completions: seq<nat>, n: nat)
  {
    forall k :: 0 <= k < |completions| ==> completions[k] < n
  }

  /** The exporter after handling `completions` in order. Whatever the order,
      the counter equals the number of completions and the k-th drawing is
      made for the photo of the k-th completion, at that photo's own index. */
  function Replay(photos: seq<Photo>, completions: seq<nat>, iso: string): (b: Barrier)
    requires InRange(completions, |photos|)
    ensures b.loaded == |completions|
    ensures |b.painted| == |completions|
    ensures forall k :: 0 <= k < |completions| ==> b.painted[k] == DrawFor(photos, completions[k])
    decreases |completions|
  {
    if completions == [] then Barrier(0, [], [])
    else
      var prior := Replay(photos, completions[..|completions| - 1], iso);
      OnLoad(photos, prior, completions[|completions| - 1], iso)
  }

  /** Clicking the download button: nothing for an empty reel, otherwise the
      exporter after the given completions. The number of photos is taken
      once, at the click. */
  function Export(photos: seq<Photo>, completions: seq<nat>, iso: string): (o: Outcome)
    requires InRange(completions, |photos|)
    ensures o.NothingToExport? <==> |photos| == 0
    ensures o.Exported? ==> o.barrier.loaded == |completions|
  {
    if |photos| == 0 then NothingToExport else Exported(Replay(photos, completions, iso))
  }

  /** Counting completions triggers the download once, and only once the
      count has reached the number of photos. */
  lemma {:induction false} DownloadsCounted(photos: seq<Photo>, completions: seq<nat>, iso: string)
    requires |photos| >= 1 && InRange(completions, |photos|)
    ensures var b := Replay(photos, completions, iso);
            |b.downloads| == (if |completions| >= |photos| then 1 else 0)
    ensures var b := Replay(photos, completions, iso);
            |completions| >= |photos| ==>
              b.downloads[0] == Encode(photos, Canvas(b.painted[..|photos|]), |photos|, iso)
    decreases |completions|
  {
    if completions != [] {
      var prior := completions[..|completions| - 1];
      DownloadsCounted(photos, prior, iso);
      var b := Replay(photos, completions, iso);
      var pb := Replay(photos, prior, iso);
      assert b.painted == pb.painted + [DrawFor(photos, completions[|completions| - 1])];
      if |completions| > |photos| {
        assert b.painted[..|photos|] == pb.painted[..|photos|];
      }
      if |completions| == |photos| {
        assert b.painted[..|photos|] == b.painted;
      }
    }
  }

  /** Each reel index completes exactly once, in any order. */
  predicate IsCompletionOrder(completions: seq<nat>, n: nat)
  {
    multiset(completions) == multiset(Indices(n))
  }

  function Indices(n: nat): (r: seq<nat>)
    ensures |r| == n
    ensures forall k :: 0 <= k < n ==> r[k] == k
  {
    if n == 0 then [] else Indices(n - 1) + [n - 1]
  }

  lemma CompletionOrderFacts(completions: seq<nat>, n: nat)
    requires IsCompletionOrder(completions, n)
    ensures |completions| == n
    ensures InRange(completions, n)
    ensures forall i :: 0 <= i < n ==> i in completions
  {
    assert |completions| == |multiset(completions)| == |multiset(Indices(n))| == n;
    forall k | 0 <= k < |completions|
      ensures completions[k] < n
    {
      assert completions[k] in multiset(Indices(n));
    }
    forall i | 0 <= i < n
      ensures i in completions
    {
      assert Indices(n)[i] == i;
      assert i in multiset(Indices(n));
    }
  }

  /** Once every photo has completed, whatever the order, the canvas holds
      exactly one drawing per photo, each at its own index. */
  lemma PaintedCanvasIsComplete(photos: seq<Photo>, completions: seq<nat>, iso: string)
    requires IsCompletionOrder(completions, |photos|)
    ensures InRange(completions, |photos|)
    ensures Canvas(Replay(photos, completions, iso).painted) == AllDraws(photos)
  {
    CompletionOrderFacts(completions, |photos|);
    var painted := Replay(photos, completions, iso).painted;
    forall d | d in Canvas(painted)
      ensures d in AllDraws(photos)
    {
      var k :| 0 <= k < |painted| && painted[k] == d;
    }
    forall d | d in AllDraws(photos)
      ensures d in Canvas(painted)
    {
      var i :| 0 <= i < |photos| && d == DrawFor(photos, i);
      assert i in completions;
      var k :| 0 <= k < |completions| && completions[k] == i;
      assert painted[k] == d;
    }
  }

  /** Prefixes of an in-range completion sequence are in range. */
  lemma PrefixInRange(completions: seq<nat>, n: nat, k: nat)
    requires InRange(completions, n) && k <= |completions|
    ensures InRange(completions[..k], n)
  {
  }

  /** No download is triggered before every photo has completed. */
  lemma NoDownloadBeforeLast(photos: seq<Photo>, completions: seq<nat>, iso: string)
    requires |photos| >= 1 && InRange(completions, |photos|)
    ensures forall k :: 0 <= k < |completions| && k < |photos| ==>
              InRange(completions[..k], |photos|) && Replay(photos, completions[..k], iso).downloads == []
  {
    forall k | 0 <= k < |completions| && k < |photos|
      ensures InRange(completions[..k], |photos|) && Replay(photos, completions[..k], iso).downloads == []
    {
      PrefixInRange(completions, |photos|, k);
      DownloadsCounted(photos, completions[..k], iso);
    }
  }

  /** The barrier: for a non-empty reel and any completion order, the
      download fires exactly once, at the last completion, and encodes the
      complete composite; so the downloaded composite does not depend on the
      order in which the decodes complete. */
  lemma FiresOnceWithCompleteComposite(photos: seq<Photo>, completions: seq<nat>, iso: string)
    requires |photos| >= 1 && IsCompletionOrder(completions, |photos|)
    ensures InRange(completions, |photos|)
    ensures Replay(photos, completions, iso).downloads
         == [Encode(photos, AllDraws(photos), |photos|, iso)]
    ensures Export(photos, completions, iso) == Exported(Replay(photos, completions, iso))
  {
    CompletionOrderFacts(completions, |photos|);
    DownloadsCounted(photos, completions, iso);
    PaintedCanvasIsComplete(photos, completions, iso);
    var b := Replay(photos, completions, iso);
    assert b.painted[..|photos|] == b.painted;
    assert b.downloads[0] == Encode(photos, Canvas(b.painted), |photos|, iso);
  }

  /** Two completion orders of the same reel download the same composite. */
  lemma DownloadIndependentOfOrder(photos: seq<Photo>, c1: seq<nat>, c2: seq<nat>, iso: string)
    requires IsCompletionOrder(c1, |photos|) && IsCompletionOrder(c2, |photos|)
    ensures InRange(c1, |photos|) && InRange(c2, |photos|)
    ensures |photos| >= 1 ==>
              Export(photos, c1, iso).barrier.downloads == Export(photos, c2, iso).barrier.downloads
    ensures Replay(photos, c1, iso).downloads == Replay(photos, c2, iso).downloads
  {
    CompletionOrderFacts(c1, |photos|);
    CompletionOrderFacts(c2, |photos|);
    if |photos| >= 1 {
      FiresOnceWithCompleteComposite(photos, c1, iso);
      FiresOnceWithCompleteComposite(photos, c2, iso);
    }
  }

  /** The clipped last caption shows in the downloaded image: its drawing for
      the last photo puts the caption baseline below the image's height. */
  lemma DownloadClipsLastCaption(photos: seq<Photo>, completions: seq<nat>, iso: string)
    requires |photos| >= 1 && IsCompletionOrder(completions, |photos|)
    ensures InRange(completions, |photos|)
    ensures |Replay(photos, completions, iso).downloads| == 1
    ensures var d := Replay(photos, completions, iso).downloads[0];
            DrawFor(photos, |photos| - 1) in d.canvas
            && DrawFor(photos, |photos| - 1).anchor.y == d.height + 5
  {
    FiresOnceWithCompleteComposite(photos, completions, iso);
    assert DrawFor(photos, |photos| - 1) in AllDraws(photos);
  }
}

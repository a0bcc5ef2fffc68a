/** The photo-booth session: the selected filter and the reel of captured
    photos, newest first, holding at most three photos. */
module Reel {
  import Filters
  import opened Numbers

  /** Capacity of the reel. */
  const MaxPhotos: nat := 3

  /** The encoded PNG of a captured frame, as an opaque token: which frame of
      the live source was drawn, and which canvas filter was active while it
      was drawn. The pixels themselves are not modelled. */
  datatype DataUrl = Png(frame: string, effect: string)

  /** One captured photo: its image, its locale-formatted capture time and the
      filter id that was selected when it was taken. */
  datatype Photo = Photo(dataUrl: DataUrl, timestamp: string, filter: string)

  /** The video element's source: absent until the camera stream is attached,
      otherwise a live stream whose current frame is named by `frame`. */
  datatype Source = NoSource | Live(frame: string)

  /** The two pieces of state the page keeps. */
  datatype Session = Session(currentFilter: string, photos: seq<Photo>)

  /** The session when the page has loaded. */
  const Initial: Session := Session(Filters.NoFilter, [])

  /** The photo's image was drawn with the canvas filter of its own filter
      id: what the reel shows matches the filter it names. */
  predicate Baked(p: Photo)
  {
    p.dataUrl.effect == Filters.CanvasFilter(p.filter)
  }

  /** The session invariant: the reel is within capacity and every photo in
      it carries the effect of its filter. */
  predicate Valid(s: Session)
  {
    && |s.photos| <= MaxPhotos
    && forall i :: 0 <= i < |s.photos| ==> Baked(s.photos[i])
  }

  /** Clicking a filter button: the id becomes current, the reel is kept. */
  function SelectFilter(s: Session, id: string): (r: Session)
    ensures r.currentFilter == id
    ensures r.photos == s.photos
  {
    s.(currentFilter := id)
  }

  /** The capture engine: draws `frame` with the canvas filter of `filter`
      and records the capture time and the filter id verbatim. */
  function Snap(filter: string, frame: string, timestamp: string): (p: Photo)
    ensures p.filter == filter && p.timestamp == timestamp
    ensures p.dataUrl.frame == frame
    ensures Baked(p)
  {
    Photo(Png(frame, Filters.CanvasFilter(filter)), timestamp, filter)
  }

  /** Prepends a photo and keeps only the first `MaxPhotos` entries. */
  function Insert(photos: seq<Photo>, p: Photo): (r: seq<Photo>)
    ensures |r| == Min(|photos| + 1, MaxPhotos)
    ensures r[0] == p
    ensures r[1..] == photos[..|r| - 1]
  {
    var grown := [p] + photos;
    if |grown| > MaxPhotos then grown[..MaxPhotos] else grown
  }

  /** Clicking "Capture": refused without a source; otherwise the current
      frame, baked with the current filter, is inserted at the front. */
  function Capture(s: Session, source: Source, timestamp: string): (r: Session)
    ensures source.NoSource? ==> r == s
    ensures source.Live? ==> r.currentFilter == s.currentFilter
    ensures source.Live? ==> |r.photos| == Min(|s.photos| + 1, MaxPhotos)
    ensures source.Live? ==> r.photos[0] == Snap(s.currentFilter, source.frame, timestamp)
    ensures source.Live? ==> r.photos[1..] == s.photos[..|r.photos| - 1]
  {
    match source
    case NoSource => s
    case Live(frame) => s.(photos := Insert(s.photos, Snap(s.currentFilter, frame, timestamp)))
  }

  /** Both transitions keep the session invariant. */
  lemma SelectKeepsValid(s: Session, id: string)
    requires Valid(s)
    ensures Valid(SelectFilter(s, id))
  {
  }

  lemma CaptureKeepsValid(s: Session, source: Source, timestamp: string)
    requires Valid(s)
    ensures Valid(Capture(s, source, timestamp))
  {
  }

  /** On a full reel a capture evicts exactly the oldest photo: the photos
      before and after differ by the new photo in and the last photo out. */
  lemma CaptureEvictsOnlyOldest(s: Session, frame: string, timestamp: string)
    requires |s.photos| == MaxPhotos
    ensures multiset(Capture(s, Live(frame), timestamp).photos) + multiset{s.photos[MaxPhotos - 1]}
         == multiset(s.photos) + multiset{Snap(s.currentFilter, frame, timestamp)}
  {
    var p := Snap(s.currentFilter, frame, timestamp);
    var r := Capture(s, Live(frame), timestamp).photos;
    assert r == [p] + s.photos[..MaxPhotos - 1];
    assert s.photos == s.photos[..MaxPhotos - 1] + [s.photos[MaxPhotos - 1]];
  }

  /** Below capacity nothing is evicted: every earlier photo is still there. */
  lemma CaptureBelowCapacityKeepsAll(s: Session, frame: string, timestamp: string)
    requires |s.photos| < MaxPhotos
    ensures Capture(s, Live(frame), timestamp).photos == [Snap(s.currentFilter, frame, timestamp)] + s.photos
  {
  }
}

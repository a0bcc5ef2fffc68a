/** The reel view: what the page shows for the current reel, as a list of
    records rather than markup. */
module Display {
  import Filters
  import opened Reel
  import opened Captions

  /** One reel entry: the image source, its 1-based position (used in the
      image's alternative text), the capture time and the filter suffix. */
  datatype Item = Item(src: DataUrl, position: nat, timestamp: string, suffix: string)

  /** The placeholder text, or one item per photo. */
  datatype Content = Placeholder | Items(items: seq<Item>)

  /** What the view shows and whether the download button is enabled. */
  datatype View = View(content: Content, downloadEnabled: bool)

  /** The entry for the photo at reel index `index`: its image, its
      position counted from one, its time, and after the time a bullet and
      the filter id unless the filter is "none". */
  function ItemFor(p: Photo, index: nat): (it: Item)
    ensures it.src == p.dataUrl && it.position == index + 1 && it.timestamp == p.timestamp
    ensures p.filter == Filters.NoFilter ==> it.suffix == []
    ensures p.filter != Filters.NoFilter ==> it.suffix == [' ', Bullet, ' '] + p.filter
  {
    Item(p.dataUrl, index + 1, p.timestamp, ReelSuffix(p.filter))
  }

  /** Redraws the reel: the placeholder and a disabled download for an empty
      reel; otherwise one item per photo in reel order and an enabled
      download. */
  function Render(photos: seq<Photo>): (v: View)
    ensures v.downloadEnabled <==> |photos| > 0
    ensures v.content.Placeholder? <==> |photos| == 0
    ensures v.content.Items? ==> |v.content.items| == |photos|
    ensures v.content.Items? ==> forall i :: 0 <= i < |photos| ==>
              && v.content.items[i].src == photos[i].dataUrl
              && v.content.items[i].position == i + 1
              && v.content.items[i].timestamp == photos[i].timestamp
              && v.content.items[i].suffix == ReelSuffix(photos[i].filter)
  {
    if |photos| == 0 then View(Placeholder, false)
    else View(Items(seq(|photos|, i requires 0 <= i < |photos| => ItemFor(photos[i], i))), true)
  }

  /** Reads the photos back from a view. */
  function PhotosShown(v: View): seq<Photo>
  {
    match v.content
    case Placeholder => []
    case Items(items) =>
      seq(|items|, i requires 0 <= i < |items| =>
        Photo(items[i].src, items[i].timestamp, FilterOfSuffix(items[i].suffix)))
  }

  /** The view shows every photo of the reel, whole and in reel order: the
      reel is read back from it exactly. */
  lemma RenderShowsReel(photos: seq<Photo>)
    ensures PhotosShown(Render(photos)) == photos
  {
  }

  /** After a capture with a live source the view shows the new photo on
      top and the download is enabled. */
  lemma CaptureShowsNewPhotoFirst(s: Session, frame: string, timestamp: string)
    ensures var v := Render(Capture(s, Live(frame), timestamp).photos);
            && v.downloadEnabled
            && v.content.Items?
            && v.content.items[0] == ItemFor(Snap(s.currentFilter, frame, timestamp), 0)
            && PhotosShown(v)[0] == Snap(s.currentFilter, frame, timestamp)
  {
  }
}

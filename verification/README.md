# Velvet Lens photo booth — a Dafny model of the session core

Velvet Lens is a browser photo booth. The user picks a filter and captures
frames from the webcam. The page keeps the three newest shots as a reel and
can export them as one vertical PNG composite. All of it lives in
`wwwroot/js/camera.js`. This project models the deterministic core of that
file as pure functions over an immutable session record:

- `Filters`: the filter catalogue. It maps a filter id to the canvas filter string baked into a capture.
- `Reel`: the session state. This is the current filter plus the photos, newest first, at most three. It has the filter-selection and capture transitions and the session invariant.
- `History`: a session as a fold over user events. An independent reference describes the result: the last selected filter, and the newest three of all photos ever taken.
- `Captions`: the reel view's caption suffix and the composite's caption text.
- `Display`: the reel view as a list of records. It shows either a placeholder or one item per photo, plus the download button's state.
- `Layout`: the composite geometry, in integer arithmetic.
- `Filename`: the name of the downloaded file.
- `Export`: the exporter's completion barrier. It is a fold over the decode completions, taken in any order.

Environment inputs are parameters:
- the video source (absent, or live with an opaque frame name);
- the locale-formatted capture time;
- the ISO time at download;
- the order in which image decodes complete.

An encoded image is an opaque token `Png(frame, effect)`. It records which frame was drawn and which canvas filter was active while drawing. This lets the model state that every photo in the reel was baked with the effect of the filter id it records.

The model follows the code in three places a reader might not expect:
- Filter ids are arbitrary strings taken from the button's `data-filter` attribute, and only three of them carry an effect. Any other id bakes the identity filter, yet it is still recorded and shown in captions.
- The composite caption for the `none` filter is the time followed by a trailing space. It is not the bare time.
- The exporter compares the counter with the live reel length (line 176). The model fixes the photo count when the button is clicked. No capture can run between the click and the last decode in the model, so the two agree there.

## Model

| member | source | states |
|---|---|---|
| Filters.CanvasFilter | wwwroot/js/camera.js:55-67 | agrees with the reference table: `sepia`, `grayscale` and `vintage` get their fixed effect strings, every other id gets `none` |
| Filters.IdentityExactlyForUncatalogued | wwwroot/js/camera.js:55-67 | the baked effect is the identity iff the id is none of the three catalogued ids |
| Filters.EffectsDistinguishIds | wwwroot/js/camera.js:55-67 | distinct catalogued ids bake distinct effects |
| Reel.SelectFilter | wwwroot/js/camera.js:43 | selection makes the id current and leaves the reel unchanged |
| Reel.Snap | wwwroot/js/camera.js:55-80 | a captured photo records the filter id verbatim and the capture time, and its image is the given frame baked with that id's catalogue effect |
| Reel.Insert | wwwroot/js/camera.js:83-88 | the new photo goes first, the length becomes min(old+1, 3), and the older photos follow in their old order with only the tail beyond capacity dropped |
| Reel.Capture | wwwroot/js/camera.js:49-90 | without a source nothing changes; with one, the filter is kept and the reel gains the new photo in front and keeps min(old+1, 3) entries |
| Reel.SelectKeepsValid | wwwroot/js/camera.js:43 | selection keeps the invariant (at most 3 photos, each baked with its own filter's effect) |
| Reel.CaptureKeepsValid | wwwroot/js/camera.js:49-88 | capture keeps the same invariant |
| Reel.CaptureEvictsOnlyOldest | wwwroot/js/camera.js:83-88 | on a full reel, the photos before and after differ by exactly the new photo in and the oldest out |
| Reel.CaptureBelowCapacityKeepsAll | wwwroot/js/camera.js:83-88 | below capacity nothing is evicted |
| History.StepKeepsValid | wwwroot/js/camera.js:36-90 | handling a filter click or a capture click keeps the invariant |
| History.Run | wwwroot/js/camera.js:9-90 | every session reachable from page load by selections and captures satisfies the invariant |
| History.ShotsCountLiveClicks | wwwroot/js/camera.js:50-83 | exactly one photo is taken per capture click that finds a source |
| History.RunMatchesHistory | wwwroot/js/camera.js:9-88 | the replayed session has the last selected filter (or `none`), and its reel is the newest three of all photos ever taken, newest first |
| History.ReelLengthAfterCaptures | wwwroot/js/camera.js:83-88 | after any events the reel holds min(number of successful captures, 3) photos |
| History.CapturesAreNewestFirst | wwwroot/js/camera.js:83 | capturing a then b leaves b first and a second, both with the filter selected before them |
| History.FourCapturesScenario | wwwroot/js/camera.js:43-88 | sepia, none, vintage, grayscale captures leave grayscale, vintage, none in that order |
| Captions.ReelSuffix | wwwroot/js/camera.js:118 | the suffix is empty iff the filter is `none`; otherwise it is space, bullet, space, then the filter id |
| Captions.SuffixRoundTrip | wwwroot/js/camera.js:118 | the filter id can be read back from the suffix |
| Captions.CompositeCaption | wwwroot/js/camera.js:167-168 | for `none` the caption is the time plus a trailing space; otherwise it equals the reel view's caption |
| Captions.CompositeCaptionNamesFilterIff | wwwroot/js/camera.js:168 | text follows the space after the time iff the filter is not `none`, and that text ends with the filter id |
| Display.ItemFor | wwwroot/js/camera.js:113-121 | a photo's entry carries its image, its 1-based position and its time, then a bullet and the filter id, or nothing for `none` |
| Display.Render | wwwroot/js/camera.js:100-124 | download is enabled iff the reel is non-empty; the placeholder appears iff it is empty; otherwise one item per photo in reel order with image, 1-based position, time, and exactly the reel suffix of its filter (present iff the filter is not `none`) |
| Display.RenderShowsReel | wwwroot/js/camera.js:113-121 | the reel can be read back exactly from its view |
| Display.CaptureShowsNewPhotoFirst | wwwroot/js/camera.js:90-123 | after a capture with a source, download is enabled and the view's first item is the new photo's entry (its image, position 1, time and filter suffix), from which the new photo reads back |
| Layout.CanvasWidth | wwwroot/js/camera.js:132-138 | the width is 660: one photo between two paddings |
| Layout.CanvasHeight | wwwroot/js/camera.js:132-139 | the height for N photos is 500·N |
| Layout.PhotoTop | wwwroot/js/camera.js:156 | photo i starts at y = 10 + 500·i |
| Layout.CaptionAnchor | wwwroot/js/camera.js:169-170 | the caption of photo i starts at (15, 505 + 500·i), fifteen pixels below that photo's bottom edge |
| Layout.PhotosDisjoint | wwwroot/js/camera.js:156-157 | no two photo rectangles share a pixel row |
| Layout.PhotosSpaced | wwwroot/js/camera.js:156 | consecutive photos are exactly 20 apart |
| Layout.PhotosInsideCanvas | wwwroot/js/camera.js:138-157 | every photo lies within [10, height − 10] vertically and [10, width − 10] horizontally |
| Layout.LastPhotoMeetsBottomPadding | wwwroot/js/camera.js:139-156 | the last photo ends exactly one padding above the bottom edge |
| Layout.InnerCaptionInGap | wwwroot/js/camera.js:156-170 | a caption sits in the gap below its photo, 5 pixels above the next photo |
| Layout.LastCaptionBelowCanvas | wwwroot/js/camera.js:139-170 | as written, the last caption's baseline is 5 pixels below the canvas's bottom edge |
| Layout.CaptionSafeHeight | wwwroot/js/camera.js:139 | the corrected height is the written height plus one spacing |
| Layout.CaptionsInsideSafeCanvas | wwwroot/js/camera.js:139-170 | with the corrected height, every photo stays within the padding and every caption baseline has at least 5 pixels of canvas below it |
| Filename.DashColons | wwwroot/js/camera.js:178 | same length; each ':' becomes '-' and every other character is kept |
| Filename.IsoPrefix | wwwroot/js/camera.js:178 | the kept part is the first min(length, 19) characters of the ISO time |
| Filename.DownloadName | wwwroot/js/camera.js:178 | the name starts with `velvetlens-reel-`, ends with `.png`, contains no ':', has the expected length, and between prefix and extension carries the first min(length, 19) ISO characters with each ':' turned into '-' and every other character kept |
| Filename.StampKeepsLength | wwwroot/js/camera.js:178 | for a full ISO time the stamp part is 19 characters long |
| Filename.NameRecoversIsoPrefix | wwwroot/js/camera.js:178 | for an ISO-shaped time the first 19 ISO characters are recovered from the name |
| Filename.SameNameIffSameSecond | wwwroot/js/camera.js:178 | two ISO-shaped times give the same name iff they agree to the second |
| Export.DrawFor | wwwroot/js/camera.js:155-171 | photo i is drawn with its own image at y = 10 + 500·i, and its caption at (15, y + 495); the caption reads like the reel view's caption, or is the time plus a space for `none` |
| Export.OnLoad | wwwroot/js/camera.js:155-183 | one load adds one to the counter and one drawing for that index; a download is added, with the name, the drawings so far and the new count, iff the new count equals the number of photos |
| Export.Replay | wwwroot/js/camera.js:150-176 | after any completions the counter equals their number, and the k-th drawing is the one for the k-th completed index, placed by that index and not by k |
| Export.Export | wwwroot/js/camera.js:127-153 | an empty reel exports nothing; otherwise the counter reflects the completions |
| Export.DownloadsCounted | wwwroot/js/camera.js:173-183 | for N ≥ 1 there is one download once at least N completions have been counted, and none before; it carries the name and the first N drawings |
| Export.PaintedCanvasIsComplete | wwwroot/js/camera.js:153-171 | after a completion order of all N indices, the canvas holds exactly one drawing per photo |
| Export.NoDownloadBeforeLast | wwwroot/js/camera.js:173-176 | no download is triggered before the N-th completion |
| Export.Encode | wwwroot/js/camera.js:138-179 | the downloaded image is 660 × 500·N, carries the download name and the given drawings, and records the completion count at which it was encoded |
| Export.FiresOnceWithCompleteComposite | wwwroot/js/camera.js:127-185 | for N ≥ 1 and any completion order, the click handler's export is exactly one download, at count N, of the 660 × 500·N full composite |
| Export.DownloadClipsLastCaption | wwwroot/js/camera.js:139-176 | in the downloaded image the last photo's caption baseline lies 5 pixels below the image's height |
| Export.DownloadIndependentOfOrder | wwwroot/js/camera.js:127-186 | two completion orders of the same non-empty reel give identical downloads, both from the fold and from the click handler |

## Left out

- Camera acquisition (lines 14-33) and stream shutdown (204-208) are browser I/O. The model takes the source as a parameter: absent or live.
- Visibility logging (193-201) and the border pulse after a capture (93-96) are UI side effects with no state.
- Pixel work is left out: drawing with a filter, PNG encoding, image decoding, fills and strokes. These are canvas calls with floating-point colour maths. An image is the opaque token `Png(frame, effect)`, and the composite is the set of drawings made on it.
- The outer background and border of the composite (lines 141-148) are left out. They are painted synchronously before any decode completes. They depend on the reel only through its length, which sets the canvas height, and never on the completion order.
- Live-preview styling through the `filter-<id>` CSS class (line 44) is left out. The stylesheet is not part of this model, so preview and capture cannot be compared.
- `toLocaleString` and `toISOString` are left out. Their results are inputs.
- Decode failure is left out. The code installs no error handler, so a failed decode just never completes. The model shows this: with fewer than N completions, no download fires (`Export.DownloadsCounted`).
- HTML templating, whitespace and the active-button class toggling are left out. The view is a list of records.
- Export.Export: the photo count is fixed when the button is clicked. The code compares with the live `capturedPhotos.length` (line 176), so a capture during the decodes would change the target. The model does not represent that interleaving.
- The initial state of the download button before the first capture comes from the page markup. That markup is not part of this model.

## Findings

| source | as written | input that shows it | evidently intended | confidence | as-written member | corrected member |
|---|---|---|---|---|---|---|
| wwwroot/js/camera.js:139 | canvas height is (480+20)·N − 20 + 2·10 = 500·N, but the last caption's baseline is drawn at y = 500·N + 5 (line 170) | any non-empty reel, e.g. N = 1: height 500, caption baseline 505, so the last caption is clipped at the bottom edge | every caption, the last one included, lies inside the exported image with the same clearance as the inner ones, e.g. height (480+20)·N + 2·10 | medium, not executed | Layout.LastCaptionBelowCanvas | Layout.CaptionsInsideSafeCanvas |

The exported download keeps the canvas size as written, so the model describes the image the page actually produces. `Export.DownloadClipsLastCaption` shows the defect in that image. `Layout.CaptionSafeHeight` is the corrected height, and `Layout.CaptionsInsideSafeCanvas` proves it fits every caption.

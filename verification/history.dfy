/** A session as the sequence of user events the page has handled, replayed
    from the initial session, and an independent description of its result:
    the filter of the last selection, and the newest three of all photos ever
    taken, newest first. */
module History {
  import Filters
  import opened Reel
  import opened Numbers

  /** A filter-button click or a capture-button click. */
  datatype Event = Select(id: string) | Click(source: Source, timestamp: string)

  function Step(s: Session, e: Event): Session
  {
    match e
    case Select(id) => SelectFilter(s, id)
    case Click(source, timestamp) => Capture(s, source, timestamp)
  }

  lemma StepKeepsValid(s: Session, e: Event)
    requires Valid(s)
    ensures Valid(Step(s, e))
  {
    match e
    case Select(id) => SelectKeepsValid(s, id);
    case Click(source, timestamp) => CaptureKeepsValid(s, source, timestamp);
  }

  /** The session after handling `events` in order from page load; every
      reachable session satisfies the session invariant. */
  function Run(events: seq<Event>): (s: Session)
    ensures Valid(s)
    decreases |events|
  {
    if events == [] then Initial
    else
      var prior := Run(events[..|events| - 1]);
      var last := events[|events| - 1];
      StepKeepsValid(prior, last);
      Step(prior, last)
  }

  /** Reference: the id of the last selection, or the initial filter. */
  function FilterAfter(events: seq<Event>): string
    decreases |events|
  {
    if events == [] then Filters.NoFilter
    else
      match events[|events| - 1]
      case Select(id) => id
      case Click(_, _) => FilterAfter(events[..|events| - 1])
  }

  /** Reference: every photo taken so far, oldest first, none ever dropped. */
  function Shots(events: seq<Event>): seq<Photo>
    decreases |events|
  {
    if events == [] then []
    else
      var prior := events[..|events| - 1];
      match events[|events| - 1]
      case Click(Live(frame), timestamp) => Shots(prior) + [Snap(FilterAfter(prior), frame, timestamp)]
      case _ => Shots(prior)
  }

  /** The number of capture clicks that found a live source. */
  function LiveClicks(events: seq<Event>): nat
    decreases |events|
  {
    if events == [] then 0
    else
      var last := events[|events| - 1];
      LiveClicks(events[..|events| - 1]) + (if last.Click? && last.source.Live? then 1 else 0)
  }

  function Reverse(xs: seq<Photo>): (r: seq<Photo>)
    ensures |r| == |xs|
    ensures forall i :: 0 <= i < |xs| ==> r[i] == xs[|xs| - 1 - i]
  {
    if xs == [] then [] else [xs[|xs| - 1]] + Reverse(xs[..|xs| - 1])
  }

  /** The newest `MaxPhotos` photos of a history, newest first. */
  function Newest(shots: seq<Photo>): seq<Photo>
  {
    Reverse(shots)[..Min(|shots|, MaxPhotos)]
  }

  /** One photo is taken per capture click that finds a source. */
  lemma {:induction false} ShotsCountLiveClicks(events: seq<Event>)
    ensures |Shots(events)| == LiveClicks(events)
    decreases |events|
  {
    if events != [] {
      ShotsCountLiveClicks(events[..|events| - 1]);
    }
  }

  lemma NewestAfterShot(shots: seq<Photo>, p: Photo)
    ensures Newest(shots + [p]) == Insert(Newest(shots), p)
  {
  }

  /** The replayed session agrees with the reference description: the current
      filter is the last selected id, and the reel is the newest three photos
      ever taken, newest first. */
  lemma {:induction false} RunMatchesHistory(events: seq<Event>)
    ensures Run(events).currentFilter == FilterAfter(events)
    ensures Run(events).photos == Newest(Shots(events))
    decreases |events|
  {
    if events != [] {
      var prior := events[..|events| - 1];
      RunMatchesHistory(prior);
      match events[|events| - 1]
      case Select(id) =>
      case Click(NoSource, _) =>
      case Click(Live(frame), timestamp) =>
        NewestAfterShot(Shots(prior), Snap(FilterAfter(prior), frame, timestamp));
    }
  }

  /** After any events the reel holds min(number of captures, 3) photos. */
  lemma ReelLengthAfterCaptures(events: seq<Event>)
    ensures |Run(events).photos| == Min(LiveClicks(events), MaxPhotos)
  {
    RunMatchesHistory(events);
    ShotsCountLiveClicks(events);
  }

  /** Capturing `a` and then `b` puts `b` in front of `a`, both carrying the
      filter selected before them. */
  lemma CapturesAreNewestFirst(events: seq<Event>, frame1: string, t1: string, frame2: string, t2: string)
    ensures var s := Run(events + [Click(Live(frame1), t1), Click(Live(frame2), t2)]);
            var f := FilterAfter(events);
            |s.photos| >= 2 && s.photos[0] == Snap(f, frame2, t2) && s.photos[1] == Snap(f, frame1, t1)
  {
    var e1 := events + [Click(Live(frame1), t1)];
    var e2 := events + [Click(Live(frame1), t1), Click(Live(frame2), t2)];
    assert e2[..|e2| - 1] == e1;
    assert e1[..|e1| - 1] == events;
    RunMatchesHistory(events);
    var s1 := Run(e1);
    var s2 := Run(e2);
    assert s2.photos[1] == s2.photos[1..][0] == s1.photos[0];
  }

  /** A worked scenario: sepia, none, vintage and grayscale captures leave the
      last three, newest first, each with the filter it was taken with. */
  lemma FourCapturesScenario()
    ensures var events := [
              Select("sepia"), Click(Live("f1"), "t1"),
              Select("none"), Click(Live("f2"), "t2"),
              Select("vintage"), Click(Live("f3"), "t3"),
              Select("grayscale"), Click(Live("f4"), "t4")];
            Run(events).photos == [
              Snap("grayscale", "f4", "t4"), Snap("vintage", "f3", "t3"), Snap("none", "f2", "t2")]
  {
    var events := [
      Select("sepia"), Click(Live("f1"), "t1"),
      Select("none"), Click(Live("f2"), "t2"),
      Select("vintage"), Click(Live("f3"), "t3"),
      Select("grayscale"), Click(Live("f4"), "t4")];
    assert events[..8][..7] == events[..7];
    assert events[..7][..6] == events[..6];
    assert events[..6][..5] == events[..5];
    assert events[..5][..4] == events[..4];
    assert events[..4][..3] == events[..3];
    assert events[..3][..2] == events[..2];
    assert events[..2][..1] == events[..1];
    assert events[..1][..0] == [];
    var p1, p2, p3, p4 := Snap("sepia", "f1", "t1"), Snap("none", "f2", "t2"),
                          Snap("vintage", "f3", "t3"), Snap("grayscale", "f4", "t4");
    assert Run(events[..1]) == Session("sepia", []);
    assert Run(events[..2]) == Session("sepia", [p1]);
    assert Run(events[..3]) == Session("none", [p1]);
    assert Run(events[..4]) == Session("none", [p2, p1]);
    assert Run(events[..5]) == Session("vintage", [p2, p1]);
    assert Run(events[..6]) == Session("vintage", [p3, p2, p1]);
    assert Run(events[..7]) == Session("grayscale", [p3, p2, p1]);
    assert Run(events[..8]) == Session("grayscale", [p4, p3, p2]);
    assert events[..8] == events;
  }
}

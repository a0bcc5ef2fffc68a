/** The two caption formats: the one the reel view writes under a photo and
    the one drawn under a photo in the exported composite. */
module Captions {
  import Filters
  import opened Reel

  /** The bullet that separates the time from the filter name. */
  const Bullet: char := '\U{2022}'

  /** The text the reel view writes after a photo's time: a bullet and the
      filter id, or nothing for the "none" filter. */
  function ReelSuffix(filter: string): (suffix: string)
    ensures suffix == [] <==> filter == Filters.NoFilter
    ensures suffix != [] ==> |suffix| == |filter| + 3 && suffix[..3] == [' ', Bullet, ' '] && suffix[3..] == filter
  {
    if filter != Filters.NoFilter then [' ', Bullet, ' '] + filter else []
  }

  /** Recovers a filter id from a reel suffix. */
  function FilterOfSuffix(suffix: string): string
  {
    if |suffix| < 3 then Filters.NoFilter else suffix[3..]
  }

  /** The reel suffix loses nothing: the filter id is read back from it. */
  lemma SuffixRoundTrip(filter: string)
    ensures FilterOfSuffix(ReelSuffix(filter)) == filter
  {
  }

  /** The caption drawn in the composite. It always puts a space after the
      time, so for the "none" filter it ends in a trailing space; for every
      other filter it reads exactly like the reel view's caption. */
  function CompositeCaption(p: Photo): (caption: string)
    ensures p.filter == Filters.NoFilter ==> caption == p.timestamp + " "
    ensures p.filter != Filters.NoFilter ==> caption == p.timestamp + ReelSuffix(p.filter)
  {
    p.timestamp + " " + (if p.filter != Filters.NoFilter then [Bullet, ' '] + p.filter else [])
  }

  /** The composite caption names the filter exactly when it is not "none":
      only then does anything follow the space after the time. */
  lemma CompositeCaptionNamesFilterIff(p: Photo)
    ensures |CompositeCaption(p)| > |p.timestamp| + 1 <==> p.filter != Filters.NoFilter
    ensures p.filter != Filters.NoFilter ==>
              CompositeCaption(p)[|p.timestamp| + 3..] == p.filter
  {
  }
}

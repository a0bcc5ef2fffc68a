/** The filter catalogue used when a frame is captured: the canvas filter
    string that the capture handler bakes into the frame for a filter id.
    Filter ids come from the filter buttons and may be any string. */
module Filters {

  /** The id the session starts with, and the id that means "no effect". */
  const NoFilter: string := "none"

  /** The canvas filter that leaves pixels unchanged. */
  const Identity: string := "none"

  /** Reference table: the ids that carry an effect, each with its effect. */
  const Effects: map<string, string> := map[
    "sepia" := "sepia(100%)",
    "grayscale" := "grayscale(100%)",
    "vintage" := "sepia(50%) contrast(1.2) brightness(1.1) saturate(1.3)"
  ]

  /** The canvas filter applied while drawing a captured frame: the table's
      effect for a known id, the identity for every other id. */
  function CanvasFilter(id: string): (effect: string)
    ensures id in Effects ==> effect == Effects[id]
    ensures id !in Effects ==> effect == Identity
  {
    if id == "sepia" then "sepia(100%)"
    else if id == "grayscale" then "grayscale(100%)"
    else if id == "vintage" then "sepia(50%) contrast(1.2) brightness(1.1) saturate(1.3)"
    else "none"
  }

  /** Only the three catalogued ids change the picture; "none" and every
      unknown id fall back to the identity. */
  lemma IdentityExactlyForUncatalogued(id: string)
    ensures CanvasFilter(id) == Identity <==> id != "sepia" && id != "grayscale" && id != "vintage"
  {
  }

  /** Distinct catalogued ids bake distinct effects, so the effect of a
      captured frame identifies its catalogued filter. */
  lemma EffectsDistinguishIds(a: string, b: string)
    requires a in Effects && b in Effects
    ensures CanvasFilter(a) == CanvasFilter(b) ==> a == b
  {
  }
}

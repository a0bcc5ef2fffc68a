/** The name given to the downloaded composite: a fixed prefix, the ISO time
    of the download cut to whole seconds with ':' turned into '-', and the PNG
    extension. */
module Filename {
  import opened Numbers

  const Prefix: string := "velvetlens-reel-"
  const Extension: string := ".png"
  /** Length of "YYYY-MM-DDTHH:MM:SS", the part of the ISO time kept. */
  const StampLength: nat := 19

  /** Replaces every ':' by '-' and keeps every other character. */
  function DashColons(s: string): (r: string)
    ensures |r| == |s|
    ensures forall i :: 0 <= i < |s| ==> r[i] == (if s[i] == ':' then '-' else s[i])
  {
    if s == [] then [] else [if s[0] == ':' then '-' else s[0]] + DashColons(s[1..])
  }

  /** The first 19 characters, or the whole string when it is shorter. */
  function IsoPrefix(iso: string): (p: string)
    ensures |p| == Min(|iso|, StampLength)
    ensures p <= iso
  {
    iso[..Min(|iso|, StampLength)]
  }

  function DownloadName(iso: string): (name: string)
    ensures |name| == |Prefix| + Min(|iso|, StampLength) + |Extension|
    ensures name[..|Prefix|] == Prefix
    ensures name[|name| - |Extension|..] == Extension
    ensures ':' !in name
    ensures forall i :: 0 <= i < Min(|iso|, StampLength) ==>
              name[|Prefix| + i] == (if iso[i] == ':' then '-' else iso[i])
  {
    Prefix + DashColons(IsoPrefix(iso)) + Extension
  }

  /** The part of a download name between prefix and extension. */
  function StampOf(name: string): string
    requires |name| >= |Prefix| + |Extension|
  {
    name[|Prefix|..|name| - |Extension|]
  }

  /** The stamp of a full ISO time is 19 characters long, as long as the ISO
      prefix it came from. */
  lemma StampKeepsLength(iso: string)
    requires |iso| >= StampLength
    ensures |StampOf(DownloadName(iso))| == StampLength
  {
  }

  /** An ISO time "YYYY-MM-DDTHH:MM:SS...": within the first 19 characters the
      colons are exactly those at positions 13 and 16. */
  predicate IsoShaped(iso: string)
  {
    && |iso| >= StampLength
    && forall i :: 0 <= i < StampLength ==> (iso[i] == ':' <==> i == 13 || i == 16)
  }

  /** Puts the two time separators of an ISO stamp back. */
  function RestoreColons(stamp: string): string
  {
    seq(|stamp|, i requires 0 <= i < |stamp| => if i == 13 || i == 16 then ':' else stamp[i])
  }

  /** For an ISO-shaped time the name loses nothing but the sub-second part:
      the ISO prefix is recovered from the name. */
  lemma NameRecoversIsoPrefix(iso: string)
    requires IsoShaped(iso)
    ensures RestoreColons(StampOf(DownloadName(iso))) == iso[..StampLength]
  {
  }

  /** Two downloads in the same second get the same name; two ISO-shaped times
      in different seconds get different names. */
  lemma SameNameIffSameSecond(a: string, b: string)
    requires IsoShaped(a) && IsoShaped(b)
    ensures DownloadName(a) == DownloadName(b) <==> a[..StampLength] == b[..StampLength]
  {
    if DownloadName(a) == DownloadName(b) {
      NameRecoversIsoPrefix(a);
      NameRecoversIsoPrefix(b);
    }
  }
}

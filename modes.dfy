/** The conventional optional value; stands for `T | undefined` in the source. */
module Options {
  datatype Option<+T> = None | Some(value: T)
}

/** The three render-mode tags of the demo's mode selector and the dispatch from a
    selected mode to the renderer that `setRenderer` builds for it. */
module RenderModes {
  import opened Options

  // The values of the `renderModes` object (src/main.ts:52).
  const NaiveTag: string := "naive"
  const ForwardPlusTag: string := "forward+"
  const ClusteredDeferredTag: string := "clustered deferred"

  /** A mode as `setRenderer` sees it: one of the three tags, or any other string
      (the `switch` has no `default` branch, so other strings are possible inputs). */
  datatype Mode = Naive | ForwardPlus | ClusteredDeferred | Other(tag: string)

  /** The concrete renderer classes that the `switch` can construct. */
  datatype RendererKind = NaiveRenderer | ForwardPlusRenderer | ClusteredDeferredRenderer

  predicate IsTag(s: string) {
    s == NaiveTag || s == ForwardPlusTag || s == ClusteredDeferredTag
  }

  /** A mode value that `ParseMode` can produce: `Other` never carries one of the tags. */
  predicate Canonical(m: Mode) {
    m.Other? ==> !IsTag(m.tag)
  }

  /** The string a mode stands for. */
  function ModeTag(m: Mode): string {
    match m
    case Naive => NaiveTag
    case ForwardPlus => ForwardPlusTag
    case ClusteredDeferred => ClusteredDeferredTag
    case Other(s) => s
  }

  /** Classifies a selector string the way the `case` labels of the `switch` compare it. */
  function ParseMode(s: string): (m: Mode)
    ensures Canonical(m)
    ensures ModeTag(m) == s
    ensures m.Other? <==> !IsTag(s)
  {
    if s == NaiveTag then Naive
    else if s == ForwardPlusTag then ForwardPlus
    else if s == ClusteredDeferredTag then ClusteredDeferred
    else Other(s)
  }

  /** Parsing the tag of a canonical mode gives the mode back. */
  lemma ParseModeTag(m: Mode)
    requires Canonical(m)
    ensures ParseMode(ModeTag(m)) == m
  {
    match m
    case Naive =>
    case ForwardPlus =>
    case ClusteredDeferred =>
    case Other(s) =>
  }

  /** The renderer the `switch` constructs for a mode, or None when no `case` matches. */
  function KindFor(m: Mode): (k: Option<RendererKind>)
    ensures k.None? <==> m.Other?
    ensures k.Some? ==> ModeOfKind(k.value) == m
  {
    match m
    case Naive => Some(NaiveRenderer)
    case ForwardPlus => Some(ForwardPlusRenderer)
    case ClusteredDeferred => Some(ClusteredDeferredRenderer)
    case Other(_) => None
  }

  /** The mode whose `case` constructs a renderer of the given kind. */
  function ModeOfKind(k: RendererKind): (m: Mode)
    ensures !m.Other?
  {
    match k
    case NaiveRenderer => Naive
    case ForwardPlusRenderer => ForwardPlus
    case ClusteredDeferredRenderer => ClusteredDeferred
  }

  /** Each renderer class is constructed for its own tag; that no other string
      constructs it is stated by `KindForTag`. */
  lemma KindForModeOfKind(k: RendererKind)
    ensures KindFor(ModeOfKind(k)) == Some(k)
    ensures KindFor(ParseMode(ModeTag(ModeOfKind(k)))) == Some(k)
  {
  }

  /** The renderer kind selected by a selector string. */
  function KindForTag(s: string): (k: Option<RendererKind>)
    ensures k == Some(NaiveRenderer) <==> s == NaiveTag
    ensures k == Some(ForwardPlusRenderer) <==> s == ForwardPlusTag
    ensures k == Some(ClusteredDeferredRenderer) <==> s == ClusteredDeferredTag
    ensures k.None? <==> !IsTag(s)
  {
    KindFor(ParseMode(s))
  }
}

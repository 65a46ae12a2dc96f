/**
 * The pure decisions of the navigation view: which presentation a measurement
 * resolves to (`calculatePaneDisplayMode`), the box that presentation asks for
 * (`calculateSizeByPaneDisplayMode`), how `onMeasure` combines them with the
 * parent's measure specs, and when an activation flip is worth a new layout
 * pass (`isModeDynamic`).
 */
module Layout {
  import opened Wrappers
  import opened PaneDisplayModes
  import opened DisplayUnits

  /**
   * The configuration fields of the view: the configured mode, the compact and
   * expanded pane widths and the two AUTO threshold widths, all in dp.
   */
  datatype Config = Config(
    paneDisplayMode: PaneDisplayMode,
    compactModeWidth: int,
    expandedModeWidth: int,
    compactModeThresholdWidth: int,
    expandedModeThresholdWidth: int)

  /** A measured box in pixels (the `Rect(0, 0, width, height)` of the source). */
  datatype Size = Size(width: int, height: int)

  /** The three kinds of constraint a parent puts on one axis. */
  datatype MeasureSpecMode = Exactly | AtMost | Unspecified

  /** The size half of a measure spec: 30 bits, never negative. */
  type SpecSize = n: int | 0 <= n < 0x4000_0000

  /** What one `onMeasure` pass decides: the reported box and the cached mode. */
  datatype Measured = Measured(width: int, height: int, mode: Option<PaneDisplayMode>)

  // ---------------------------------------------------------------------------
  // Mode resolution
  // ---------------------------------------------------------------------------

  /**
   * `calculatePaneDisplayMode`: explicit TOP, LEFT and LEFTCOMPACT are kept as
   * configured; LEFTMINIMAL opens to LEFTCOMPACT while the view is active; AUTO
   * classifies the parent width (in dp) against the two thresholds. The parent
   * height is only logged by the source and is not a parameter here.
   */
  function Resolve(c: Config, isActive: bool, parentWidthInDp: int): (r: PaneDisplayMode)
    ensures r != Auto
    ensures c.paneDisplayMode in {Top, Left, LeftCompact} ==> r == c.paneDisplayMode
    ensures c.paneDisplayMode == LeftMinimal ==> (r == LeftCompact <==> isActive)
    ensures c.paneDisplayMode == LeftMinimal ==> r in {LeftCompact, LeftMinimal}
  {
    var m := c.paneDisplayMode;
    if m == Top || m == Left || m == LeftCompact then
      m
    else if m == LeftMinimal then
      if isActive then LeftCompact else LeftMinimal
    else if parentWidthInDp > c.compactModeThresholdWidth
            && parentWidthInDp <= c.expandedModeThresholdWidth then
      LeftCompact
    else if parentWidthInDp > c.expandedModeThresholdWidth then
      Left
    else if isActive then
      LeftCompact
    else
      LeftMinimal
  }

  /**
   * Under AUTO: a parent in (compact threshold, expanded threshold] gets the
   * compact pane, one wider than the expanded threshold gets the full pane, and
   * one at most the compact threshold (and, when the thresholds are inverted,
   * at most the expanded one) gets the minimal pane unless active.
   */
  lemma AutoThresholds(c: Config, isActive: bool, w: int)
    requires c.paneDisplayMode == Auto
    ensures (c.compactModeThresholdWidth < w <= c.expandedModeThresholdWidth) ==>
              Resolve(c, isActive, w) == LeftCompact
    ensures w > c.expandedModeThresholdWidth ==> Resolve(c, isActive, w) == Left
    ensures (w <= c.compactModeThresholdWidth && w <= c.expandedModeThresholdWidth) ==>
              Resolve(c, isActive, w) == (if isActive then LeftCompact else LeftMinimal)
  {
  }

  /**
   * A rank for comparing presentations. Only the order of the three resolved
   * side panes, LEFTMINIMAL < LEFTCOMPACT < LEFT, is used; TOP (a bar, not a
   * side pane) and AUTO (never a resolved mode) are ranked above them only to
   * make the function total.
   */
  function Breadth(m: PaneDisplayMode): nat {
    match m
    case LeftMinimal => 0
    case LeftCompact => 1
    case Left => 2
    case Top => 3
    case Auto => 4
  }

  /** The wider of two presentations. */
  function Wider(a: PaneDisplayMode, b: PaneDisplayMode): PaneDisplayMode {
    if Breadth(a) >= Breadth(b) then a else b
  }

  /** The presentation the parent width alone allows under AUTO. */
  function WidthAllows(c: Config, w: int): PaneDisplayMode {
    if w > c.expandedModeThresholdWidth then Left
    else if w > c.compactModeThresholdWidth then LeftCompact
    else LeftMinimal
  }

  /** The narrowest presentation the activation flag asks for. */
  function ActivationAsks(isActive: bool): PaneDisplayMode {
    if isActive then LeftCompact else LeftMinimal
  }

  /**
   * An independent reading of AUTO: the result is the wider of what the width
   * allows and what the activation flag asks for, whatever the thresholds.
   */
  lemma AutoIsWiderOfWidthAndActivation(c: Config, isActive: bool, w: int)
    requires c.paneDisplayMode == Auto
    ensures Resolve(c, isActive, w) == Wider(WidthAllows(c, w), ActivationAsks(isActive))
  {
  }

  /** A wider parent never resolves to a narrower presentation. */
  lemma WiderParentNeverNarrowsPane(c: Config, isActive: bool, w1: int, w2: int)
    requires w1 <= w2
    ensures Breadth(Resolve(c, isActive, w1)) <= Breadth(Resolve(c, isActive, w2))
  {
    if c.paneDisplayMode == Auto {
      AutoIsWiderOfWidthAndActivation(c, isActive, w1);
      AutoIsWiderOfWidthAndActivation(c, isActive, w2);
    }
  }

  /**
   * The activation flag changes the resolution exactly when the configured mode
   * is LEFTMINIMAL, or it is AUTO and the parent is no wider than either
   * threshold; the flip is then always between LEFTMINIMAL and LEFTCOMPACT.
   */
  lemma ActivationMatters(c: Config, w: int)
    ensures Resolve(c, false, w) != Resolve(c, true, w) <==>
              (c.paneDisplayMode == LeftMinimal
               || (c.paneDisplayMode == Auto
                   && w <= c.compactModeThresholdWidth && w <= c.expandedModeThresholdWidth))
    ensures Resolve(c, false, w) != Resolve(c, true, w) ==>
              Resolve(c, false, w) == LeftMinimal && Resolve(c, true, w) == LeftCompact
  {
  }

  /**
   * With the expanded threshold not above the compact one (nothing checks the
   * order), an inactive AUTO view never reaches the compact pane.
   */
  lemma InvertedThresholdsSkipCompact(c: Config, w: int)
    requires c.paneDisplayMode == Auto
    requires c.expandedModeThresholdWidth <= c.compactModeThresholdWidth
    ensures Resolve(c, false, w) in {Left, LeftMinimal}
    ensures Resolve(c, false, w) == Left <==> w > c.expandedModeThresholdWidth
  {
  }

  // ---------------------------------------------------------------------------
  // Size calculation
  // ---------------------------------------------------------------------------

  /**
   * `calculateSizeByPaneDisplayMode`: TOP spans the parent width at the compact
   * height; LEFT is the expanded width at the parent height; LEFTMINIMAL is the
   * compact width and twice the compact width tall; everything else (LEFTCOMPACT,
   * and AUTO, which falls into the same branch) is the compact width at the
   * parent height. Widths in dp are converted to pixels by the density.
   */
  function SizeFor(c: Config, d: Density, mode: PaneDisplayMode, parentWidth: int, parentHeight: int): (s: Size)
    ensures mode == Top ==> s.width == parentWidth
    ensures mode in {Left, LeftCompact, Auto} ==> s.height == parentHeight
    ensures mode == LeftMinimal ==> s.height == DpToPx(d, 2 * c.compactModeWidth)
    ensures mode == Left ==> s.width == DpToPx(d, c.expandedModeWidth)
    ensures mode in {LeftCompact, LeftMinimal, Auto} ==> s.width == DpToPx(d, c.compactModeWidth)
    ensures mode == Top ==> s.height == DpToPx(d, c.compactModeWidth)
  {
    if mode == Top then
      Size(parentWidth, DpToPx(d, c.compactModeWidth))
    else if mode == Left then
      Size(DpToPx(d, c.expandedModeWidth), parentHeight)
    else if mode == LeftMinimal then
      Size(DpToPx(d, c.compactModeWidth), DpToPx(d, c.compactModeWidth * 2))
    else
      Size(DpToPx(d, c.compactModeWidth), parentHeight)
  }

  /**
   * The minimal pane is twice as tall as it is wide, up to one pixel of
   * truncation, and exactly twice at a whole-number density; the parent's
   * height plays no part.
   */
  lemma {:induction false} MinimalPaneIsTwiceAsTall(c: Config, d: Density, pw: int, ph: int, ph': int)
    requires c.compactModeWidth >= 0
    ensures var s := SizeFor(c, d, LeftMinimal, pw, ph);
            2 * s.width <= s.height <= 2 * s.width + 1
    ensures d.den == 1 ==>
              SizeFor(c, d, LeftMinimal, pw, ph).height == 2 * SizeFor(c, d, LeftMinimal, pw, ph).width
    ensures SizeFor(c, d, LeftMinimal, pw, ph) == SizeFor(c, d, LeftMinimal, pw, ph')
  {
    DoubledWithinOnePixel(d, c.compactModeWidth);
    if d.den == 1 {
      WholeDensityDoubles(d, c.compactModeWidth);
    }
  }

  /** When the expanded width is at least the compact width, so are their panes. */
  lemma {:induction false} ExpandedPaneAtLeastCompact(c: Config, d: Density, pw: int, ph: int)
    requires c.compactModeWidth <= c.expandedModeWidth
    ensures SizeFor(c, d, LeftCompact, pw, ph).width <= SizeFor(c, d, Left, pw, ph).width
    ensures SizeFor(c, d, LeftMinimal, pw, ph).width <= SizeFor(c, d, Left, pw, ph).width
  {
    DpToPxMonotone(d, c.compactModeWidth, c.expandedModeWidth);
  }

  // ---------------------------------------------------------------------------
  // Measurement
  // ---------------------------------------------------------------------------

  /** `Math.min`. */
  function Min(a: int, b: int): (r: int)
    ensures r <= a && r <= b
    ensures r == a || r == b
  {
    if a <= b then a else b
  }

  /**
   * The rule `onMeasure` applies to each axis: EXACTLY takes the given size;
   * AT_MOST takes the candidate capped by the given size; UNSPECIFIED takes the
   * candidate; without a candidate both fall back to the given size.
   */
  function Constrain(kind: MeasureSpecMode, given: int, candidate: Option<int>): (r: int)
    ensures kind == Exactly || candidate.None? ==> r == given
    ensures kind == AtMost ==> r <= given
    ensures kind == AtMost && candidate.Some? ==>
              r <= candidate.value && (r == given || r == candidate.value)
    ensures kind == Unspecified && candidate.Some? ==> r == candidate.value
  {
    match candidate
    case None => given
    case Some(v) =>
      match kind
      case Exactly => given
      case AtMost => Min(v, given)
      case Unspecified => v
  }

  /**
   * One `onMeasure` pass. An EXACTLY width keeps the cached mode and only uses
   * it (if any) for a candidate height; any other width resolves the mode
   * afresh from the parent width in dp and sizes the pane for it.
   */
  function Measurement(c: Config, d: Density, isActive: bool, last: Option<PaneDisplayMode>,
                       widthMode: MeasureSpecMode, widthSize: SpecSize,
                       heightMode: MeasureSpecMode, heightSize: SpecSize): (r: Measured)
    ensures widthMode == Exactly ==> r.width == widthSize && r.mode == last
    ensures widthMode == Exactly && last.None? ==> r.height == heightSize
    ensures widthMode != Exactly ==> r.mode == Some(Resolve(c, isActive, PxToDp(d, widthSize)))
    ensures heightMode == Exactly ==> r.height == heightSize
    ensures widthMode == AtMost ==> r.width <= widthSize
    ensures heightMode == AtMost ==> r.height <= heightSize
    ensures last != Some(Auto) ==> r.mode != Some(Auto)
  {
    var mode := if widthMode == Exactly then last
                else Some(Resolve(c, isActive, PxToDp(d, widthSize)));
    var candidate := match mode
                     case None => None
                     case Some(m) => Some(SizeFor(c, d, m, widthSize, heightSize));
    Measured(
      Constrain(widthMode, widthSize, match candidate case None => None case Some(s) => Some(s.width)),
      Constrain(heightMode, heightSize, match candidate case None => None case Some(s) => Some(s.height)),
      mode)
  }

  /**
   * A width that is not EXACTLY is the pane's own width, capped by the parent
   * under AT_MOST; a height that is not EXACTLY is the pane's own height, capped
   * likewise, whenever there is a mode to size.
   */
  lemma MeasuredFromPane(c: Config, d: Density, isActive: bool, last: Option<PaneDisplayMode>,
                         wm: MeasureSpecMode, ws: SpecSize, hm: MeasureSpecMode, hs: SpecSize)
    ensures var r := Measurement(c, d, isActive, last, wm, ws, hm, hs);
            r.mode.Some? ==>
              var s := SizeFor(c, d, r.mode.value, ws, hs);
              && (wm == AtMost ==> r.width == Min(s.width, ws))
              && (wm == Unspecified ==> r.width == s.width)
              && (hm == AtMost ==> r.height == Min(s.height, hs))
              && (hm == Unspecified ==> r.height == s.height)
  {
  }

  /**
   * Measuring again with the same specs and the same configuration gives the
   * same result: the mode cached by the first pass is the one the second would
   * use or recompute.
   */
  lemma RemeasureIsStable(c: Config, d: Density, isActive: bool, last: Option<PaneDisplayMode>,
                          wm: MeasureSpecMode, ws: SpecSize, hm: MeasureSpecMode, hs: SpecSize)
    ensures var r := Measurement(c, d, isActive, last, wm, ws, hm, hs);
            Measurement(c, d, isActive, r.mode, wm, ws, hm, hs) == r
  {
  }

  /**
   * Under AUTO a parent wider than the expanded threshold (in dp) that lets the
   * view choose its width gets the full LEFT pane, capped by the parent.
   */
  lemma WideAutoParentGetsFullPane(c: Config, d: Density, isActive: bool, last: Option<PaneDisplayMode>,
                                   ws: SpecSize, hm: MeasureSpecMode, hs: SpecSize)
    requires c.paneDisplayMode == Auto
    requires PxToDp(d, ws) > c.expandedModeThresholdWidth
    ensures var r := Measurement(c, d, isActive, last, AtMost, ws, hm, hs);
            r.mode == Some(Left) && r.width == Min(DpToPx(d, c.expandedModeWidth), ws)
  {
  }

  // ---------------------------------------------------------------------------
  // Activation
  // ---------------------------------------------------------------------------

  /**
   * `isModeDynamic`: whether flipping the activation flag may change the
   * presentation, judged from the configured mode and the last resolved one.
   */
  function ModeDynamic(configured: PaneDisplayMode, last: Option<PaneDisplayMode>): (r: bool)
    ensures r ==> configured in {LeftMinimal, Auto}
    ensures configured == Auto && last.None? ==> !r
  {
    if configured == LeftMinimal then true
    else if configured == Auto then last == Some(LeftMinimal) || last == Some(LeftCompact)
    else false
  }

  /**
   * The layout request is never missed: whenever the flag would change the
   * resolution at the width the last mode was resolved for, the mode counts
   * as dynamic.
   */
  lemma DynamicWheneverActivationMatters(c: Config, isActive: bool, w: int)
    requires Resolve(c, isActive, w) != Resolve(c, !isActive, w)
    ensures ModeDynamic(c.paneDisplayMode, Some(Resolve(c, isActive, w)))
  {
    ActivationMatters(c, w);
  }

  /**
   * The judgement is conservative: an AUTO view whose parent sits between the
   * thresholds is counted as dynamic although the flag cannot change it.
   */
  lemma DynamicIsConservative()
    ensures var c := Config(Auto, 56, 280, 480, 840);
            && ModeDynamic(Auto, Some(Resolve(c, false, 500)))
            && Resolve(c, false, 500) == Resolve(c, true, 500)
  {
  }
}

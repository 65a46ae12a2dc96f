/**
 * The navigation view itself: its configuration fields, the state cached by
 * the last measurement pass, the activation flag, and the effects it has on
 * its host (layout requests, background, listener calls). The host's own
 * calls (`requestLayout`, the listener, `setBackground`) are recorded in
 * fields rather than performed.
 */
module Widget {
  import opened Wrappers
  import opened PaneDisplayModes
  import opened DisplayUnits
  import opened Layout
  import opened Attributes

  /** The view's background: a transparent color, or the drawable saved by `init`. */
  datatype Background = TransparentColor | SavedDrawable

  /** `Color.LTGRAY`, the saved background when the view has none of its own. */
  const LightGray: int := 0xFFCC_CCCC

  /** One call of the state-change listener: which listener, and its arguments. */
  datatype StateChange = StateChange(listener: nat, width: int, height: int, mode: Option<PaneDisplayMode>)

  /** The listener calls a notification makes: one when a listener is set, none otherwise. */
  function Notified(listener: Option<nat>, width: int, height: int, mode: Option<PaneDisplayMode>): (calls: seq<StateChange>)
    ensures |calls| == (if listener.Some? then 1 else 0)
    ensures listener.Some? ==> calls[0] == StateChange(listener.value, width, height, mode)
  {
    match listener
    case None => []
    case Some(l) => [StateChange(l, width, height, mode)]
  }

  /** The background a notification leaves: transparent exactly for LEFTMINIMAL. */
  function BackgroundFor(mode: Option<PaneDisplayMode>): (b: Background)
    ensures b == TransparentColor <==> mode == Some(LeftMinimal)
  {
    if mode == Some(LeftMinimal) then TransparentColor else SavedDrawable
  }

  class NavigationView {
    /** Which copy of the widget this is; it fixes the defaults and the attribute rule. */
    const variant: Variant
    /** The display density of the view's context. */
    const density: Density
    /** The color of the saved background drawable (`mColorDrawable`). */
    const savedColor: int

    // State of the last measurement pass
    var lastMeasureWidth: int
    var lastMeasureHeight: int
    var lastMeasureMode: Option<PaneDisplayMode>
    var isActive: bool

    // Configuration
    var paneDisplayMode: PaneDisplayMode
    var compactModeWidth: int
    var expandedModeWidth: int
    var compactModeThresholdWidth: int
    var expandedModeThresholdWidth: int

    /** The registered state-change listener, by identity, if any. */
    var listener: Option<nat>
    var background: Background

    /** How many times the view has asked its host for a new layout pass. */
    ghost var layoutRequests: nat
    /** Every listener call made so far, oldest first. */
    ghost var stateChanges: seq<StateChange>

    /**
     * The one invariant the view keeps: AUTO is never cached as the last mode.
     * `OnMeasure` needs it because an EXACTLY width keeps the cached mode as it is.
     */
    ghost predicate Valid()
      reads this
    {
      lastMeasureMode != Some(Auto)
    }

    /** The configuration fields as one value. */
    function Configuration(): Config
      reads this
    {
      Config(paneDisplayMode, compactModeWidth, expandedModeWidth,
             compactModeThresholdWidth, expandedModeThresholdWidth)
    }

    /** The cached result of the last measurement pass. */
    function LastMeasure(): Measured
      reads this
    {
      Measured(lastMeasureWidth, lastMeasureHeight, lastMeasureMode)
    }

    /**
     * The constructors and `init`: the copy's defaults, then every attribute
     * present on the view in turn; the saved background is the view's own
     * color or light gray, and a tap toggles the activation flag (`OnClick`).
     */
    constructor (variant: Variant, density: Density, ownBackground: Option<int>, attrs: seq<Attr>)
      ensures Valid()
      ensures this.variant == variant && this.density == density
      ensures Configuration() == ApplyAttrs(variant, density, Defaults(variant), attrs)
      ensures LastMeasure() == Measured(-1, -1, None)
      ensures !isActive && listener == None
      ensures background == SavedDrawable && savedColor == ownBackground.GetOr(LightGray)
      ensures layoutRequests == 0 && stateChanges == []
    {
      this.variant := variant;
      this.density := density;
      var defaults := Defaults(variant);
      lastMeasureWidth, lastMeasureHeight, lastMeasureMode := -1, -1, None;
      isActive := false;
      paneDisplayMode := defaults.paneDisplayMode;
      compactModeWidth := defaults.compactModeWidth;
      expandedModeWidth := defaults.expandedModeWidth;
      compactModeThresholdWidth := defaults.compactModeThresholdWidth;
      expandedModeThresholdWidth := defaults.expandedModeThresholdWidth;
      listener := None;
      savedColor := ownBackground.GetOr(LightGray);
      background := SavedDrawable;
      layoutRequests, stateChanges := 0, [];
      new;
      var i := 0;
      while i < |attrs|
        invariant 0 <= i <= |attrs|
        invariant Configuration() == ApplyAttrs(variant, density, Defaults(variant), attrs[..i])
        invariant LastMeasure() == Measured(-1, -1, None)
        invariant !isActive && listener == None && background == SavedDrawable
        invariant layoutRequests == 0 && stateChanges == []
      {
        assert attrs[..i + 1][..i] == attrs[..i];
        ApplyAttribute(attrs[i]);
        i := i + 1;
      }
      assert attrs[..|attrs|] == attrs;
    }

    /** One iteration of `init`'s attribute loop. */
    method ApplyAttribute(a: Attr)
      modifies this`paneDisplayMode, this`compactModeWidth, this`expandedModeWidth,
               this`compactModeThresholdWidth, this`expandedModeThresholdWidth
      ensures Configuration() == ApplyAttr(variant, density, old(Configuration()), a)
    {
      match a
      case PaneDisplayModeAttr(code) =>
        var m := FromInt(code);
        SetPaneDisplayMode(m);
      case CompactModeThresholdWidthAttr(x) =>
        compactModeThresholdWidth := ReadDimension(variant, density, x);
      case ExpandedModeThresholdWidthAttr(x) =>
        expandedModeThresholdWidth := ReadDimension(variant, density, x);
      case CompactModeWidthAttr(x) =>
        compactModeWidth := ReadDimension(variant, density, x);
        if variant == Library {
          expandedModeWidth := compactModeWidth * 5;
        }
      case ExpandedModeWidthAttr(x) =>
        expandedModeWidth := ReadDimension(variant, density, x);
    }

    /**
     * `onMeasure`: decides the box for the parent's two measure specs, caches
     * the box (and, unless the width is EXACTLY, the freshly resolved mode),
     * and notifies when the view has a non-empty visible rectangle.
     */
    method OnMeasure(widthMode: MeasureSpecMode, widthSize: SpecSize,
                     heightMode: MeasureSpecMode, heightSize: SpecSize, visible: bool)
      requires Valid()
      modifies this`lastMeasureWidth, this`lastMeasureHeight, this`lastMeasureMode,
               this`background, this`stateChanges
      ensures Valid()
      ensures LastMeasure() == Measurement(Configuration(), density, isActive, old(lastMeasureMode),
                                           widthMode, widthSize, heightMode, heightSize)
      ensures visible ==> background == BackgroundFor(lastMeasureMode)
      ensures visible ==> stateChanges == old(stateChanges)
                            + Notified(listener, lastMeasureWidth, lastMeasureHeight, lastMeasureMode)
      ensures !visible ==> background == old(background) && stateChanges == old(stateChanges)
    {
      var widthSizeInDp := PxToDp(density, widthSize);
      var width: int;
      var height: int;
      if widthMode == Exactly {
        // No fresh resolution: the cached mode, if any, proposes a height.
        var newSize: Option<Size> := None;
        if lastMeasureMode.Some? {
          newSize := Some(SizeFor(Configuration(), density, lastMeasureMode.value, widthSize, heightSize));
        }
        width := widthSize;
        if heightMode == Exactly {
          height := heightSize;
        } else if heightMode == AtMost {
          height := if newSize.Some? then Min(newSize.value.height, heightSize) else heightSize;
        } else {
          height := if newSize.Some? then newSize.value.height else heightSize;
        }
      } else if widthMode == AtMost {
        var mode := Resolve(Configuration(), isActive, widthSizeInDp);
        lastMeasureMode := Some(mode);
        var newSize := SizeFor(Configuration(), density, mode, widthSize, heightSize);
        width := Min(newSize.width, widthSize);
        if heightMode == Exactly {
          height := heightSize;
        } else if heightMode == AtMost {
          height := Min(newSize.height, heightSize);
        } else {
          height := newSize.height;
        }
      } else {
        var mode := Resolve(Configuration(), isActive, widthSizeInDp);
        lastMeasureMode := Some(mode);
        var newSize := SizeFor(Configuration(), density, mode, widthSize, heightSize);
        width := newSize.width;
        if heightMode == Exactly {
          height := heightSize;
        } else if heightMode == AtMost {
          height := Min(newSize.height, heightSize);
        } else {
          height := newSize.height;
        }
      }
      lastMeasureWidth := width;
      lastMeasureHeight := height;
      if visible {
        OnNavigationViewStateChange(lastMeasureWidth, lastMeasureHeight, lastMeasureMode);
      }
    }

    /**
     * `onNavigationViewStateChange`: a transparent background for LEFTMINIMAL,
     * the saved one for any other (or no) mode, then one call of the listener
     * with the same arguments when one is registered.
     */
    method OnNavigationViewStateChange(width: int, height: int, mode: Option<PaneDisplayMode>)
      modifies this`background, this`stateChanges
      ensures background == BackgroundFor(mode)
      ensures stateChanges == old(stateChanges) + Notified(listener, width, height, mode)
    {
      if mode == Some(LeftMinimal) {
        background := TransparentColor;
      } else {
        background := SavedDrawable;
      }
      if listener.Some? {
        stateChanges := stateChanges + [StateChange(listener.value, width, height, mode)];
      }
    }

    /**
     * `setActive`: a no-op when the flag already has the value; a genuine flip
     * asks for a new layout pass exactly when the mode is dynamic.
     */
    method SetActive(active: bool)
      modifies this`isActive, this`layoutRequests
      ensures isActive == active
      ensures old(isActive) == active ==> layoutRequests == old(layoutRequests)
      ensures old(isActive) != active ==>
                layoutRequests == old(layoutRequests)
                                  + (if ModeDynamic(paneDisplayMode, lastMeasureMode) then 1 else 0)
    {
      if isActive != active {
        isActive := active;
        if ModeDynamic(paneDisplayMode, lastMeasureMode) {
          layoutRequests := layoutRequests + 1;
        }
      }
    }

    /** The click listener `init` installs: a tap toggles the activation flag. */
    method OnClick()
      modifies this`isActive, this`layoutRequests
      ensures isActive == !old(isActive)
      ensures layoutRequests == old(layoutRequests)
                                + (if ModeDynamic(paneDisplayMode, lastMeasureMode) then 1 else 0)
    {
      SetActive(!isActive);
    }

    method SetPaneDisplayMode(mode: PaneDisplayMode)
      modifies this`paneDisplayMode
      ensures Configuration() == old(Configuration()).(paneDisplayMode := mode)
    {
      paneDisplayMode := mode;
    }

    method SetCompactModeWidth(width: int)
      modifies this`compactModeWidth
      ensures Configuration() == old(Configuration()).(compactModeWidth := width)
    {
      compactModeWidth := width;
    }

    method SetExpandedModeWidth(width: int)
      modifies this`expandedModeWidth
      ensures Configuration() == old(Configuration()).(expandedModeWidth := width)
    {
      expandedModeWidth := width;
    }

    /** `setCompactModeThreashholdWidth` (the source's spelling). */
    method SetCompactModeThresholdWidth(width: int)
      modifies this`compactModeThresholdWidth
      ensures Configuration() == old(Configuration()).(compactModeThresholdWidth := width)
    {
      compactModeThresholdWidth := width;
    }

    /** `setExpandedModeThreadholdWidth` (the source's spelling). */
    method SetExpandedModeThresholdWidth(width: int)
      modifies this`expandedModeThresholdWidth
      ensures Configuration() == old(Configuration()).(expandedModeThresholdWidth := width)
    {
      expandedModeThresholdWidth := width;
    }

    method SetNavigationViewStateChangeListener(l: Option<nat>)
      modifies this`listener
      ensures listener == l
    {
      listener := l;
    }
  }

  /** Activating twice in a row asks for at most one layout pass. */
  method ActivateTwice(v: NavigationView)
    modifies v
    ensures v.isActive
    ensures v.layoutRequests <= old(v.layoutRequests) + 1
  {
    v.SetActive(true);
    v.SetActive(true);
  }

  /**
   * A measurement with a wide-enough visible parent under AUTO, followed by a
   * tap: the pane is the full LEFT one, the listener hears of it, and the tap
   * requests no layout because the flag cannot change that presentation.
   */
  method MeasureWideThenTap(v: NavigationView, ws: SpecSize, hs: SpecSize)
    requires v.Valid() && v.paneDisplayMode == Auto && v.listener.Some?
    requires PxToDp(v.density, ws) > v.expandedModeThresholdWidth
    modifies v
    ensures v.lastMeasureMode == Some(Left) && v.background == SavedDrawable
    ensures v.listener == old(v.listener)
    ensures v.stateChanges == old(v.stateChanges)
                              + [StateChange(v.listener.value, v.lastMeasureWidth, v.lastMeasureHeight, Some(Left))]
    ensures v.layoutRequests == old(v.layoutRequests)
  {
    v.OnMeasure(AtMost, ws, Exactly, hs, true);
    v.OnClick();
  }
}

# NavigationView: a Dafny model

This project models the responsive navigation pane `NavigationView`, an Android
`ConstraintLayout` that decides on every measurement pass which of five pane
presentations to show (TOP, LEFT, LEFTCOMPACT, LEFTMINIMAL, or AUTO, which is
resolved from the parent width) and how large the pane is. It then swaps its
background and tells a listener. The repository has two near-identical copies of
the widget: the library's (`navigationview/.../widget/NavigationView.java`) and
the demo app's (`app/.../templateapp/NavigationView.java`). In these two files
they share every decision and differ only in these points:

- the default compact width: 60 dp in the library, 56 dp in the app;
- how `init` reads dimension attributes: the library converts pixels to dp, and
  a compact width attribute also sets the expanded width to five times it; the
  app takes the raw integers.

The model is one component with a `Variant` (`Library` | `App`) that selects
these differences. Line numbers in the app copy are those of the library plus 3
to 8 (for example, `onMeasure` is library 108-210 and app 111-213).

Modules, one per concern:

- `PaneDisplayModes` (`pane_display_mode.dfy`): the mode enum, its integer codes,
  the constant-time decoding `FromCode` and the source's linear search `FromInt`
  proved equal to it.
- `DisplayUnits` (`display_units.dfy`): dp/px conversion. The display density is
  an exact positive ratio. Every `(int)` cast truncates toward zero.
- `Layout` (`layout.dfy`): the pure decisions. It holds the mode resolver
  (`calculatePaneDisplayMode`), the size calculator
  (`calculateSizeByPaneDisplayMode`) and the 3x3 measure-spec rule of
  `onMeasure` as the function `Measurement`. It also has `isModeDynamic`.
- `Attributes` (`attributes.dfy`): the defaults of each copy, and the layout
  attributes `init` applies, as a fold over the attributes.
- `Widget` (`navigation_view.dfy`): the class `NavigationView` with the source's
  fields and methods. `OnMeasure` mirrors the nested branches of `onMeasure` and
  is proved to leave exactly the state `Measurement` describes. `SetActive`,
  the notifier and the setters are methods with frames on the fields they write.
  Host effects are recorded, not performed: `requestLayout` increments the ghost
  counter `layoutRequests`, and listener calls are appended to the ghost log
  `stateChanges`. The background is a two-value tag.

Points where the code says something more precise than a casual reading:

- Under AUTO, a width at most the compact threshold gives LEFTMINIMAL (or
  LEFTCOMPACT when active) only if it is also at most the expanded threshold.
  Nothing checks the order of the two thresholds. When they are inverted, such
  a width resolves to LEFT (`Layout.AutoThresholds`,
  `Layout.InvertedThresholdsSkipCompact`).
- The LEFTMINIMAL pane is `dpToPx(2 * compactWidth)` tall, not
  `2 * dpToPx(compactWidth)`. It is exactly twice its width only at whole-number
  densities; otherwise it can be one pixel more. At 2.625 px/dp, 60 dp gives
  157 px wide and 315 px tall (`DisplayUnits.DoubledWithinOnePixel`,
  `DisplayUnits.DoublingNotExactAtFractionalDensity`).
- With an EXACTLY width before any other pass, the cached mode is still null.
  A visible view then notifies with no mode, which restores the saved
  background.
- `isModeDynamic` over-approximates. It never misses a flip that changes the
  presentation (`Layout.DynamicWheneverActivationMatters`), but it also asks for
  a layout pass where the flag cannot change anything
  (`Layout.DynamicIsConservative`).

## Model

| member | source | states |
|---|---|---|
| `PaneDisplayModes.PaneDisplayMode.GetValue` | navigationview/src/main/java/com/dfbarone/android/navigationview/widget/NavigationView.java:352-367 | every mode has a code in 0..4 |
| `PaneDisplayModes.Values` | navigationview/src/main/java/com/dfbarone/android/navigationview/widget/NavigationView.java:352-357 | `values()` lists the five modes in declaration order, the i-th having code i, so every mode sits at the index of its code |
| `PaneDisplayModes.FromCode` | navigationview/src/main/java/com/dfbarone/android/navigationview/widget/NavigationView.java:369-376 | a code in 0..4 decodes to the mode with that code; any other code decodes to AUTO |
| `PaneDisplayModes.FromInt` | app/src/main/java/com/example/dbarone/templateapp/NavigationView.java:377-384 | the linear search returns the mode whose code matches when there is one, AUTO when none matches, and agrees with `FromCode` on every integer |
| `PaneDisplayModes.CodeRoundTrip` | navigationview/src/main/java/com/dfbarone/android/navigationview/widget/NavigationView.java:352-376 | decoding the code of any mode gives that mode back, and no two modes share a code |
| `DisplayUnits.TruncDiv` | navigationview/src/main/java/com/dfbarone/android/navigationview/widget/NavigationView.java:117-118 | the `(int)` cast of a quotient is the quotient truncated toward zero: for a non-negative dividend `q*b <= a < q*b + b`, for a negative one `q*b - b < a <= q*b`, so it keeps the sign of the dividend |
| `DisplayUnits.TruncDivIsOdd` | navigationview/src/main/java/com/dfbarone/android/navigationview/widget/NavigationView.java:117-118 | the cast truncates toward zero: negating the dividend negates the quotient |
| `DisplayUnits.DpToPx` | navigationview/src/main/java/com/dfbarone/android/navigationview/DisplayUtils.java:11-13 | `(int) dpToPx(dp)` is `dp * density` truncated toward zero: for dp >= 0, `px*den <= dp*num < px*den + den` (and px >= 0), mirrored for negative dp |
| `DisplayUnits.PxToDp` | navigationview/src/main/java/com/dfbarone/android/navigationview/DisplayUtils.java:7-9 | `(int) pxToDp(px)` is `px / density` truncated toward zero: for px >= 0, `dp*num <= px*den < dp*num + num` (and dp >= 0), mirrored for negative px |
| `DisplayUnits.DpToPxMonotone` | navigationview/src/main/java/com/dfbarone/android/navigationview/widget/NavigationView.java:259-267 | a longer dp length is never fewer pixels |
| `DisplayUnits.PxToDpMonotone` | navigationview/src/main/java/com/dfbarone/android/navigationview/widget/NavigationView.java:117 | a wider parent in pixels is never fewer dp |
| `DisplayUnits.DoubledWithinOnePixel` | navigationview/src/main/java/com/dfbarone/android/navigationview/widget/NavigationView.java:264-265 | for dp >= 0, `dpToPx(2*dp)` lies between `2*dpToPx(dp)` and one pixel more |
| `DisplayUnits.WholeDensityDoubles` | app/src/main/java/com/example/dbarone/templateapp/NavigationView.java:272-273 | at a whole-number density, `dpToPx(2*dp)` is exactly `2*dpToPx(dp)` |
| `DisplayUnits.WholeDensityRoundTrip` | navigationview/src/main/java/com/dfbarone/android/navigationview/widget/NavigationView.java:79 | at a whole-number density, converting dp to pixels and back gives the dp length again |
| `DisplayUnits.DoublingNotExactAtFractionalDensity` | navigationview/src/main/java/com/dfbarone/android/navigationview/widget/NavigationView.java:263-265 | at 21/8 px per dp, 60 dp is 157 px but 120 dp is 315 px, so the minimal pane is not exactly twice as tall as wide |
| `Layout.Resolve` | navigationview/src/main/java/com/dfbarone/android/navigationview/widget/NavigationView.java:228-251 | the resolved mode is never AUTO; TOP, LEFT and LEFTCOMPACT pass through whatever the width or flag; a configured LEFTMINIMAL gives LEFTCOMPACT if and only if active, else LEFTMINIMAL |
| `Layout.AutoThresholds` | app/src/main/java/com/example/dbarone/templateapp/NavigationView.java:240-250 | under AUTO a width in (compact, expanded threshold] gives LEFTCOMPACT, above the expanded threshold LEFT, and at most both thresholds LEFTCOMPACT when active, else LEFTMINIMAL |
| `Layout.AutoIsWiderOfWidthAndActivation` | navigationview/src/main/java/com/dfbarone/android/navigationview/widget/NavigationView.java:237-247 | AUTO resolves to the wider of what the width allows and what the activation flag asks for, for any thresholds |
| `Layout.WiderParentNeverNarrowsPane` | navigationview/src/main/java/com/dfbarone/android/navigationview/widget/NavigationView.java:231-248 | the resolution is monotone in the parent width: a wider parent never gets a narrower presentation |
| `Layout.ActivationMatters` | navigationview/src/main/java/com/dfbarone/android/navigationview/widget/NavigationView.java:235-247 | the flag changes the resolution if and only if the configured mode is LEFTMINIMAL, or it is AUTO with the width at most both thresholds; the change is always LEFTMINIMAL to LEFTCOMPACT |
| `Layout.InvertedThresholdsSkipCompact` | navigationview/src/main/java/com/dfbarone/android/navigationview/widget/NavigationView.java:239-247 | with the expanded threshold not above the compact one, an inactive AUTO view is LEFT above the expanded threshold and LEFTMINIMAL otherwise, never LEFTCOMPACT |
| `Layout.SizeFor` | navigationview/src/main/java/com/dfbarone/android/navigationview/widget/NavigationView.java:253-271 | TOP spans the parent width at the compact height; LEFT and LEFTCOMPACT (and AUTO, in the else branch) keep the parent height; LEFTMINIMAL is `dpToPx(2*compact)` tall whatever the parent height; the width is the expanded width for LEFT and the compact width otherwise |
| `Layout.MinimalPaneIsTwiceAsTall` | app/src/main/java/com/example/dbarone/templateapp/NavigationView.java:271-273 | for a non-negative compact width, the minimal pane is twice as tall as wide up to one pixel, exactly twice at a whole-number density, and independent of the parent height |
| `Layout.ExpandedPaneAtLeastCompact` | navigationview/src/main/java/com/dfbarone/android/navigationview/widget/NavigationView.java:260-268 | when the expanded width is at least the compact width, the LEFT pane is at least as wide as the LEFTCOMPACT and LEFTMINIMAL panes |
| `Layout.Min` | navigationview/src/main/java/com/dfbarone/android/navigationview/widget/NavigationView.java:156 | `Math.min` is at most both arguments and equal to one of them |
| `Layout.Constrain` | navigationview/src/main/java/com/dfbarone/android/navigationview/widget/NavigationView.java:133-146 | per axis: EXACTLY or no candidate gives the given size; AT_MOST never exceeds the given size and is the smaller of candidate and given; UNSPECIFIED gives the candidate |
| `Layout.Measurement` | navigationview/src/main/java/com/dfbarone/android/navigationview/widget/NavigationView.java:122-197 | an EXACTLY width is kept and leaves the cached mode unchanged, and with no cached mode the height is the given one; any other width re-resolves the mode from the width in dp; an EXACTLY height is kept; AT_MOST sizes never exceed the spec; the cached mode never becomes AUTO |
| `Layout.MeasuredFromPane` | app/src/main/java/com/example/dbarone/templateapp/NavigationView.java:150-199 | whenever a mode is known, an AT_MOST axis is the pane size capped by the spec and an UNSPECIFIED axis is the pane size itself |
| `Layout.RemeasureIsStable` | navigationview/src/main/java/com/dfbarone/android/navigationview/widget/NavigationView.java:122-203 | repeating a pass with the same specs and configuration gives the same size and cached mode |
| `Layout.WideAutoParentGetsFullPane` | navigationview/src/main/java/com/dfbarone/android/navigationview/widget/NavigationView.java:147-156 | under AUTO with an AT_MOST width wider than the expanded threshold, the mode is LEFT and the width is the expanded width capped by the parent |
| `Layout.ModeDynamic` | navigationview/src/main/java/com/dfbarone/android/navigationview/widget/NavigationView.java:339-347 | only LEFTMINIMAL or AUTO configurations can be dynamic, and AUTO is not dynamic before any resolution |
| `Layout.DynamicWheneverActivationMatters` | navigationview/src/main/java/com/dfbarone/android/navigationview/widget/NavigationView.java:330-347 | whenever flipping the flag would change the resolution at the width the last mode came from, the mode counts as dynamic, so no needed layout pass is missed |
| `Layout.DynamicIsConservative` | app/src/main/java/com/example/dbarone/templateapp/NavigationView.java:347-355 | an AUTO view between the thresholds counts as dynamic although the flag cannot change its presentation |
| `Attributes.CompactModeWidthDefault` | navigationview/src/main/java/com/dfbarone/android/navigationview/widget/NavigationView.java:24 | the compiled-in compact width is 60 dp in the library (56 dp in the app, app NavigationView.java:28) |
| `Attributes.Defaults` | navigationview/src/main/java/com/dfbarone/android/navigationview/widget/NavigationView.java:23-43 | the initial configuration is AUTO, the expanded width is five times a positive compact width, and the compact threshold is below the expanded one |
| `Attributes.ApplyAttr` | navigationview/src/main/java/com/dfbarone/android/navigationview/widget/NavigationView.java:73-88 | each attribute sets exactly its own field: the mode decoded with the AUTO fallback, a threshold or the expanded width as the copy reads the dimension, the compact width likewise (and, in the library only, the expanded width to five times it); every other field is unchanged |
| `Attributes.ReadDimension` | navigationview/src/main/java/com/dfbarone/android/navigationview/widget/NavigationView.java:79-86 | the library reads a dimension attribute as a pixel size and keeps the whole dp it spans (`dp*num <= px*den < dp*num + num` for px >= 0); the app (app NavigationView.java:83-89) takes the raw integer |
| `Attributes.ApplyAttrs` | app/src/main/java/com/example/dbarone/templateapp/NavigationView.java:77-91 | the attribute loop with no attributes leaves the defaults; otherwise every configuration field keeps its default or holds the value some attribute of that kind was read as (in the library the expanded width may also be five times a read compact width) |
| `Attributes.LibraryCompactWidthSetsExpanded` | navigationview/src/main/java/com/dfbarone/android/navigationview/widget/NavigationView.java:82-84 | in the library a compact width attribute sets the compact width to the pixels converted to dp and the expanded width to five times that, and nothing else |
| `Attributes.AppCompactWidthKeepsExpanded` | app/src/main/java/com/example/dbarone/templateapp/NavigationView.java:86-87 | in the app a compact width attribute sets the raw value and changes nothing else |
| `Attributes.ModeKeptWithoutModeAttr` | navigationview/src/main/java/com/dfbarone/android/navigationview/widget/NavigationView.java:73-88 | attributes without a `paneDisplayMode` leave the configured mode as it was |
| `Attributes.LastModeAttrWins` | app/src/main/java/com/example/dbarone/templateapp/NavigationView.java:77-81 | the last `paneDisplayMode` attribute decides the configured mode |
| `Attributes.LastAttrWins` | navigationview/src/main/java/com/dfbarone/android/navigationview/widget/NavigationView.java:73-88 | over the whole attribute loop, the last attribute of a kind decides its field (mode, either threshold, compact width); the last expanded width attribute decides the expanded width unless, in the library, a later compact width attribute resets it |
| `Attributes.LibraryLastCompactWidthSetsExpanded` | navigationview/src/main/java/com/dfbarone/android/navigationview/widget/NavigationView.java:82-84 | in the library, the last compact width attribute with no expanded width attribute after it leaves the compact width at its dp value and the expanded width at five times that |
| `Attributes.LibraryKeepsFiveToOne` | navigationview/src/main/java/com/dfbarone/android/navigationview/widget/NavigationView.java:82-86 | in the library, with no explicit expanded width, the expanded width stays five times the compact width through any attributes |
| `Attributes.AppDoesNotKeepFiveToOne` | app/src/main/java/com/example/dbarone/templateapp/NavigationView.java:86-89 | in the app a compact width of 72 leaves the expanded width at the default 280 |
| `Attributes.AppDefaultAutoSamples` | app/src/main/java/com/example/dbarone/templateapp/NavigationView.java:28-31 | with the thresholds 480/840: 500 dp gives LEFTCOMPACT, 900 dp LEFT, 300 dp LEFTMINIMAL or LEFTCOMPACT when active, and 480 dp is still on the minimal side |
| `Attributes.AppDefaultSizeSamples` | app/src/main/java/com/example/dbarone/templateapp/NavigationView.java:265-278 | with the 56 dp default, TOP in a 1000x2000 parent is 1000 wide and 56 dp tall; the minimal pane is 56 dp by 112 dp at a whole-number density |
| `Widget.Notified` | navigationview/src/main/java/com/dfbarone/android/navigationview/widget/NavigationView.java:223-225 | a notification calls the listener exactly once, with the same width, height and mode, when one is registered, and not at all otherwise |
| `Widget.BackgroundFor` | navigationview/src/main/java/com/dfbarone/android/navigationview/widget/NavigationView.java:216-220 | the background is transparent if and only if the mode is LEFTMINIMAL |
| `Widget.NavigationView.constructor` | navigationview/src/main/java/com/dfbarone/android/navigationview/widget/NavigationView.java:50-106 | the configuration is the copy's defaults with the attributes applied in order; the cache is -1/-1/null; inactive; no listener; the saved background is the view's own color or light gray |
| `Widget.NavigationView.ApplyAttribute` | app/src/main/java/com/example/dbarone/templateapp/NavigationView.java:78-90 | one iteration of the attribute loop changes the configuration exactly as `ApplyAttr` says, decoding the mode with `FromInt` |
| `Widget.NavigationView.OnMeasure` | navigationview/src/main/java/com/dfbarone/android/navigationview/widget/NavigationView.java:108-210 | the cached width, height and mode become `Measurement` of the old cache and the specs; a visible view notifies (background and one listener call with the cached values), an invisible one changes neither; the configuration and flag are untouched; AUTO is never cached |
| `Widget.NavigationView.OnNavigationViewStateChange` | app/src/main/java/com/example/dbarone/templateapp/NavigationView.java:215-229 | the background becomes transparent exactly for LEFTMINIMAL and the saved one otherwise; a registered listener is called once with the arguments |
| `Widget.NavigationView.SetActive` | navigationview/src/main/java/com/dfbarone/android/navigationview/widget/NavigationView.java:330-337 | the flag takes the value; an unchanged value requests no layout; a flip requests one layout pass if and only if the mode is dynamic; nothing else changes |
| `Widget.NavigationView.OnClick` | navigationview/src/main/java/com/dfbarone/android/navigationview/widget/NavigationView.java:101-105 | a tap toggles the flag and requests a layout pass if and only if the mode is dynamic |
| `Widget.NavigationView.SetPaneDisplayMode` | navigationview/src/main/java/com/dfbarone/android/navigationview/widget/NavigationView.java:280-283 | sets the configured mode and nothing else |
| `Widget.NavigationView.SetCompactModeWidth` | navigationview/src/main/java/com/dfbarone/android/navigationview/widget/NavigationView.java:289-291 | sets the compact width and nothing else (no 5x rule outside `init`) |
| `Widget.NavigationView.SetExpandedModeWidth` | navigationview/src/main/java/com/dfbarone/android/navigationview/widget/NavigationView.java:297-299 | sets the expanded width and nothing else |
| `Widget.NavigationView.SetCompactModeThresholdWidth` | navigationview/src/main/java/com/dfbarone/android/navigationview/widget/NavigationView.java:305-307 | `setCompactModeThreashholdWidth` (name normalized): sets the compact threshold and nothing else |
| `Widget.NavigationView.SetExpandedModeThresholdWidth` | navigationview/src/main/java/com/dfbarone/android/navigationview/widget/NavigationView.java:313-315 | `setExpandedModeThreadholdWidth` (name normalized): sets the expanded threshold and nothing else |
| `Widget.NavigationView.SetNavigationViewStateChangeListener` | navigationview/src/main/java/com/dfbarone/android/navigationview/widget/NavigationView.java:321-324 | replaces the single registered listener and nothing else |
| `Widget.ActivateTwice` | app/src/main/java/com/example/dbarone/templateapp/NavigationView.java:338-345 | activating twice in a row leaves the view active with at most one layout request |
| `Widget.MeasureWideThenTap` | app/src/main/java/com/example/dbarone/templateapp/NavigationView.java:150-213 | an AUTO view measured visibly under a parent wider than the expanded threshold is LEFT with the saved background, the listener hears of it once, and a following tap requests no layout |

## Left out

- `MainActivity` (activity setup and image loading) is not part of this model.
- The app copy calls `DisplayUtils` from its own package (`com.example.dbarone.templateapp.DisplayUtils`), which is not part of this model. `DisplayUnits` assumes it converts exactly as the library's `DisplayUtils` does (divide or multiply by the density), for both variants.
- `DisplayUnits.DpToPx`: the density is an exact ratio and the arithmetic is exact. Float rounding of `px / density` and `dp * density`, and the saturating `(int)` cast of out-of-range floats, are not modelled.
- Java's 32-bit `int`: `compactWidth * 5`, `compactWidth * 2` and the conversions are unbounded here, so overflow of absurdly large configured widths is not modelled. Measure-spec sizes are bounded to 30 bits (`SpecSize`), as the measure spec encodes them.
- `super.onMeasure` (measuring the children with EXACTLY specs) is left out. The size it reports is the cached width and height.
- `getLocalVisibleRect` and the `mSize` rectangle: the model takes a boolean input that says whether the visible rectangle is non-empty.
- `Log.d` calls. The parent height in dp reaches `calculatePaneDisplayMode` only for logging, so `Layout.Resolve` does not take it.
- `requestLayout`, `setBackground` and the listener are recorded (a counter, a two-value background tag, a log of calls), not performed. The identity of drawables is not modelled (each transparent background is a new `ColorDrawable` in the source). A listener that throws, or re-enters a layout pass, is not modelled.
- `TypedArray` reading: each attribute carries the value `init` reads for it. The order in which `getIndex` visits them (the styleable's order) is an input. The fallback values passed to `getDimensionPixelSize`/`getInt` are not modelled. Note that both copies pass the compact threshold (480) as the fallback for the compact width.
- The cast of the existing background to `ColorDrawable` in `init` (which throws for other drawable kinds) is not modelled. The saved color is the view's own color or light gray.
- `Widget.NavigationView.SetPaneDisplayMode`: the Java setter accepts `null`, and `PaneDisplayMode` here has no null. A null configured mode resolves like AUTO in `calculatePaneDisplayMode` (it falls into the final `else`), but `isModeDynamic` returns false for it, so unlike AUTO an activation flip never requests a layout pass. That combination is not modelled.
- The getters (`getPaneDisplayMode`, `getCompactModeWidth`, …, `isActive`) are the class's fields, read directly.
- Registering the click listener on the view is host wiring. Only its effect (`OnClick`) is modelled.

/**
 * The configuration a navigation view starts from: the compiled-in defaults of
 * each copy of the widget and the layout attributes its `init` applies on top.
 * The library copy reads dimensions in pixels and converts them to dp, and a
 * compact width attribute also sets the expanded width to five times it; the
 * app copy reads the raw integers and has no such rule.
 */
module Attributes {
  import opened PaneDisplayModes
  import opened DisplayUnits
  import opened Layout

  /** Which copy of the widget: the library's or the demo app's. */
  datatype Variant = Library | App

  /** One layout attribute present on the view, with the value `init` reads for it. */
  datatype Attr =
    | PaneDisplayModeAttr(code: int)
    | CompactModeThresholdWidthAttr(value: int)
    | ExpandedModeThresholdWidthAttr(value: int)
    | CompactModeWidthAttr(value: int)
    | ExpandedModeWidthAttr(value: int)

  /** The compiled-in compact width in dp: 60 in the library, 56 in the app. */
  function CompactModeWidthDefault(v: Variant): (w: int)
    ensures v == Library ==> w == 60
    ensures v == App ==> w == 56
  {
    match v
    case Library => 60
    case App => 56
  }

  const CompactModeThresholdWidthDefault: int := 480
  const ExpandedModeThresholdWidthDefault: int := 840

  /**
   * The field initialisers: AUTO, the compact width, five times it as the
   * expanded width, and the thresholds 480 and 840 dp.
   */
  function Defaults(v: Variant): (c: Config)
    ensures c.paneDisplayMode == Auto
    ensures c.expandedModeWidth == 5 * c.compactModeWidth
    ensures c.compactModeThresholdWidth < c.expandedModeThresholdWidth
    ensures 0 < c.compactModeWidth < c.expandedModeWidth
  {
    Config(Auto, CompactModeWidthDefault(v), CompactModeWidthDefault(v) * 5,
           CompactModeThresholdWidthDefault, ExpandedModeThresholdWidthDefault)
  }

  /**
   * A dimension attribute as the copy reads it: the library takes a pixel size
   * and keeps the whole dp it spans (truncated), the app takes the raw integer.
   */
  function ReadDimension(v: Variant, d: Density, value: int): (dp: int)
    ensures v == App ==> dp == value
    ensures v == Library && value >= 0 ==>
              0 <= dp && dp * d.num <= value * d.den < dp * d.num + d.num
  {
    match v
    case Library => PxToDp(d, value)
    case App => value
  }

  /** The effect of one attribute on the configuration, as `init` applies it. */
  function ApplyAttr(v: Variant, d: Density, c: Config, a: Attr): (c': Config)
    ensures !a.PaneDisplayModeAttr? ==> c'.paneDisplayMode == c.paneDisplayMode
    ensures a.PaneDisplayModeAttr? ==> c' == c.(paneDisplayMode := FromCode(a.code))
    ensures !a.CompactModeWidthAttr? && !a.ExpandedModeWidthAttr? ==>
              c'.compactModeWidth == c.compactModeWidth && c'.expandedModeWidth == c.expandedModeWidth
    ensures a.CompactModeThresholdWidthAttr? ==>
              c' == c.(compactModeThresholdWidth := ReadDimension(v, d, a.value))
    ensures a.ExpandedModeThresholdWidthAttr? ==>
              c' == c.(expandedModeThresholdWidth := ReadDimension(v, d, a.value))
    ensures a.ExpandedModeWidthAttr? ==>
              c' == c.(expandedModeWidth := ReadDimension(v, d, a.value))
    ensures a.CompactModeWidthAttr? && v == App ==>
              c' == c.(compactModeWidth := ReadDimension(v, d, a.value))
    ensures a.CompactModeWidthAttr? && v == Library ==>
              c' == c.(compactModeWidth := ReadDimension(v, d, a.value),
                       expandedModeWidth := 5 * ReadDimension(v, d, a.value))
  {
    match a
    case PaneDisplayModeAttr(code) => c.(paneDisplayMode := FromCode(code))
    case CompactModeThresholdWidthAttr(x) => c.(compactModeThresholdWidth := ReadDimension(v, d, x))
    case ExpandedModeThresholdWidthAttr(x) => c.(expandedModeThresholdWidth := ReadDimension(v, d, x))
    case CompactModeWidthAttr(x) =>
      var w := ReadDimension(v, d, x);
      if v == Library then c.(compactModeWidth := w, expandedModeWidth := 5 * w)
      else c.(compactModeWidth := w)
    case ExpandedModeWidthAttr(x) => c.(expandedModeWidth := ReadDimension(v, d, x))
  }

  /**
   * The attributes applied one after another, in the order `init` visits them.
   * Each field keeps its starting value or holds what some attribute set it to.
   */
  function ApplyAttrs(v: Variant, d: Density, c: Config, attrs: seq<Attr>): (c': Config)
    ensures attrs == [] ==> c' == c
    ensures c'.paneDisplayMode == c.paneDisplayMode
            || exists i :: 0 <= i < |attrs| && attrs[i].PaneDisplayModeAttr?
                 && c'.paneDisplayMode == FromCode(attrs[i].code)
    ensures c'.compactModeThresholdWidth == c.compactModeThresholdWidth
            || exists i :: 0 <= i < |attrs| && attrs[i].CompactModeThresholdWidthAttr?
                 && c'.compactModeThresholdWidth == ReadDimension(v, d, attrs[i].value)
    ensures c'.expandedModeThresholdWidth == c.expandedModeThresholdWidth
            || exists i :: 0 <= i < |attrs| && attrs[i].ExpandedModeThresholdWidthAttr?
                 && c'.expandedModeThresholdWidth == ReadDimension(v, d, attrs[i].value)
    ensures c'.compactModeWidth == c.compactModeWidth
            || exists i :: 0 <= i < |attrs| && attrs[i].CompactModeWidthAttr?
                 && c'.compactModeWidth == ReadDimension(v, d, attrs[i].value)
    ensures c'.expandedModeWidth == c.expandedModeWidth
            || (exists i :: 0 <= i < |attrs| && attrs[i].ExpandedModeWidthAttr?
                  && c'.expandedModeWidth == ReadDimension(v, d, attrs[i].value))
            || (v == Library
                && (exists i :: 0 <= i < |attrs| && attrs[i].CompactModeWidthAttr?
                      && c'.expandedModeWidth == 5 * ReadDimension(v, d, attrs[i].value)))
    decreases |attrs|
  {
    if attrs == [] then c
    else ApplyAttr(v, d, ApplyAttrs(v, d, c, attrs[..|attrs| - 1]), attrs[|attrs| - 1])
  }

  /** In the library a compact width attribute also sets the expanded width to 5x. */
  lemma LibraryCompactWidthSetsExpanded(d: Density, c: Config, px: int)
    ensures var c' := ApplyAttr(Library, d, c, CompactModeWidthAttr(px));
            c'.compactModeWidth == PxToDp(d, px) && c'.expandedModeWidth == 5 * c'.compactModeWidth
    ensures ApplyAttr(Library, d, c, CompactModeWidthAttr(px)).(compactModeWidth := c.compactModeWidth,
              expandedModeWidth := c.expandedModeWidth) == c
  {
  }

  /** In the app a compact width attribute is taken raw and leaves the expanded width alone. */
  lemma AppCompactWidthKeepsExpanded(d: Density, c: Config, x: int)
    ensures ApplyAttr(App, d, c, CompactModeWidthAttr(x)) == c.(compactModeWidth := x)
  {
  }

  /** Attributes other than `paneDisplayMode` never change the configured mode. */
  lemma {:induction false} ModeKeptWithoutModeAttr(v: Variant, d: Density, c: Config, attrs: seq<Attr>)
    requires forall i :: 0 <= i < |attrs| ==> !attrs[i].PaneDisplayModeAttr?
    ensures ApplyAttrs(v, d, c, attrs).paneDisplayMode == c.paneDisplayMode
    decreases |attrs|
  {
    if attrs != [] {
      ModeKeptWithoutModeAttr(v, d, c, attrs[..|attrs| - 1]);
    }
  }

  /** Which field an attribute sets: attributes of one kind set the same field. */
  function Kind(a: Attr): nat {
    match a
    case PaneDisplayModeAttr(_) => 0
    case CompactModeThresholdWidthAttr(_) => 1
    case ExpandedModeThresholdWidthAttr(_) => 2
    case CompactModeWidthAttr(_) => 3
    case ExpandedModeWidthAttr(_) => 4
  }

  /**
   * The last attribute of a kind decides its field: the mode (decoded with the
   * AUTO fallback), either threshold or the compact width. It also decides the
   * expanded width when no later compact width attribute can reset it, which
   * only the library does.
   */
  lemma {:induction false} LastAttrWins(v: Variant, d: Density, c: Config,
                                        before: seq<Attr>, a: Attr, after: seq<Attr>)
    requires forall i :: 0 <= i < |after| ==> Kind(after[i]) != Kind(a)
    ensures var c' := ApplyAttrs(v, d, c, before + [a] + after);
            && (a.PaneDisplayModeAttr? ==> c'.paneDisplayMode == FromCode(a.code))
            && (a.CompactModeThresholdWidthAttr? ==>
                  c'.compactModeThresholdWidth == ReadDimension(v, d, a.value))
            && (a.ExpandedModeThresholdWidthAttr? ==>
                  c'.expandedModeThresholdWidth == ReadDimension(v, d, a.value))
            && (a.CompactModeWidthAttr? ==> c'.compactModeWidth == ReadDimension(v, d, a.value))
    ensures a.ExpandedModeWidthAttr?
            && (v == App || forall i :: 0 <= i < |after| ==> !after[i].CompactModeWidthAttr?) ==>
              ApplyAttrs(v, d, c, before + [a] + after).expandedModeWidth == ReadDimension(v, d, a.value)
    decreases |after|
  {
    var all := before + [a] + after;
    if after == [] {
      assert all[..|all| - 1] == before;
    } else {
      assert all[..|all| - 1] == before + [a] + after[..|after| - 1];
      assert all[|all| - 1] == after[|after| - 1];
      LastAttrWins(v, d, c, before, a, after[..|after| - 1]);
    }
  }

  /** The last `paneDisplayMode` attribute decides the configured mode, decoded with the AUTO fallback. */
  lemma LastModeAttrWins(v: Variant, d: Density, c: Config,
                         before: seq<Attr>, code: int, after: seq<Attr>)
    requires forall i :: 0 <= i < |after| ==> !after[i].PaneDisplayModeAttr?
    ensures ApplyAttrs(v, d, c, before + [PaneDisplayModeAttr(code)] + after).paneDisplayMode
              == FromCode(code)
  {
    assert forall i :: 0 <= i < |after| ==> Kind(after[i]) != 0;
    LastAttrWins(v, d, c, before, PaneDisplayModeAttr(code), after);
  }

  /**
   * In the library the last compact width attribute, with no expanded width
   * attribute after it, sets the expanded width to five times the compact one.
   */
  lemma {:induction false} LibraryLastCompactWidthSetsExpanded(d: Density, c: Config,
                                                             before: seq<Attr>, x: int, after: seq<Attr>)
    requires forall i :: 0 <= i < |after| ==>
               !after[i].CompactModeWidthAttr? && !after[i].ExpandedModeWidthAttr?
    ensures var c' := ApplyAttrs(Library, d, c, before + [CompactModeWidthAttr(x)] + after);
            c'.compactModeWidth == PxToDp(d, x) && c'.expandedModeWidth == 5 * PxToDp(d, x)
    decreases |after|
  {
    var all := before + [CompactModeWidthAttr(x)] + after;
    if after == [] {
      assert all[..|all| - 1] == before;
    } else {
      assert all[..|all| - 1] == before + [CompactModeWidthAttr(x)] + after[..|after| - 1];
      assert all[|all| - 1] == after[|after| - 1];
      LibraryLastCompactWidthSetsExpanded(d, c, before, x, after[..|after| - 1]);
    }
  }

  /**
   * In the library the expanded width stays five times the compact width, as
   * the defaults have it, for any attributes without an explicit expanded width.
   */
  lemma {:induction false} LibraryKeepsFiveToOne(d: Density, c: Config, attrs: seq<Attr>)
    requires c.expandedModeWidth == 5 * c.compactModeWidth
    requires forall i :: 0 <= i < |attrs| ==> !attrs[i].ExpandedModeWidthAttr?
    ensures ApplyAttrs(Library, d, c, attrs).expandedModeWidth
              == 5 * ApplyAttrs(Library, d, c, attrs).compactModeWidth
    decreases |attrs|
  {
    if attrs != [] {
      LibraryKeepsFiveToOne(d, c, attrs[..|attrs| - 1]);
    }
  }

  /** The app has no such rule: one compact width attribute breaks the ratio. */
  lemma AppDoesNotKeepFiveToOne(d: Density)
    ensures var c := ApplyAttrs(App, d, Defaults(App), [CompactModeWidthAttr(72)]);
            c.compactModeWidth == 72 && c.expandedModeWidth == 280
  {
    assert [CompactModeWidthAttr(72)][..0] == [];
  }

  /**
   * The app's defaults (thresholds 480 and 840 dp) on sample parents:
   * 500 dp gives LEFTCOMPACT, 900 dp gives LEFT, 300 dp gives LEFTMINIMAL or,
   * when active, LEFTCOMPACT, and exactly 480 dp is still on the minimal side.
   */
  lemma AppDefaultAutoSamples()
    ensures var c := Defaults(App);
            && Resolve(c, false, 500) == LeftCompact
            && Resolve(c, false, 900) == Left
            && Resolve(c, false, 300) == LeftMinimal
            && Resolve(c, true, 300) == LeftCompact
            && Resolve(c, false, 480) == LeftMinimal
            && Resolve(c, true, 480) == LeftCompact
  {
  }

  /**
   * The app's default 56 dp compact width on sample sizes: a TOP pane in a
   * 1000 x 2000 parent is the full width and 56 dp tall, and a minimal pane is
   * 56 dp wide and 112 dp tall at a whole-number density.
   */
  lemma AppDefaultSizeSamples(d: Density)
    requires d.den == 1
    ensures SizeFor(Defaults(App), d, Top, 1000, 2000) == Size(1000, 56 * d.num)
    ensures SizeFor(Defaults(App), d, LeftMinimal, 1000, 2000) == Size(56 * d.num, 112 * d.num)
  {
  }
}

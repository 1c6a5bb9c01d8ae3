/** What the setters promise one call at a time. */
module SetterProperties {
  import opened Wrappers
  import opened Colors
  import opened Chrome
  import opened Setters

  /**
   * `setStatusBarTransparent(b)` replaces the decor visibility wholesale, forces a
   * transparent status bar only when `b` holds, and touches nothing else.
   */
  lemma TransparentReplacesVisibility(w: Option<WindowState>, isTransparent: bool)
    ensures w.None? ==> SetStatusBarTransparent(w, isTransparent) == Step(w, Some(NullPointer))
    ensures w.Some? ==>
      var r := SetStatusBarTransparent(w, isTransparent);
      r.thrown.None? && r.window.Some? &&
      r.window.value.systemUiVisibility ==
        (if isTransparent then {LayoutStable, LayoutFullscreen} else {LayoutStable, Visible}) &&
      r.window.value.statusBarColor == (if isTransparent then TRANSPARENT else w.value.statusBarColor) &&
      r.window.value.flags == w.value.flags &&
      r.window.value.navigationBarColor == w.value.navigationBarColor &&
      r.window.value.lightStatusBars == w.value.lightStatusBars &&
      r.window.value.lightNavigationBars == w.value.lightNavigationBars
  {
  }

  /** Below API 23, or for an empty token, `setStatusBarStyle` does nothing at all. */
  lemma StatusStyleUngated(d: Device, w: Option<WindowState>, style: string)
    requires d.sdk < M || style == ""
    ensures SetStatusBarStyle(d, w, style) == Step(w, None)
  {
  }

  /**
   * From API 23 on, a recognised token sets the light-status switch to the value
   * `LightAppearanceFor` gives ("lightcontent" true, "default"/"darkcontent" false) and
   * nothing else; an unrecognised token changes nothing.
   */
  lemma StatusStyleApplied(d: Device, w: WindowState, style: string)
    requires d.sdk >= M && style != "" && d.insetsController
    ensures style == STYLE_LIGHT_CONTENT ==>
      SetStatusBarStyle(d, Some(w), style) == Step(Some(w.(lightStatusBars := true)), None)
    ensures style == STYLE_DEFAULT || style == STYLE_DARK_CONTENT ==>
      SetStatusBarStyle(d, Some(w), style) == Step(Some(w.(lightStatusBars := false)), None)
    ensures style !in {STYLE_LIGHT_CONTENT, STYLE_DEFAULT, STYLE_DARK_CONTENT} ==>
      SetStatusBarStyle(d, Some(w), style) == Step(Some(w), None)
  {
  }

  /**
   * With no insets controller, a recognised token dereferences null before any change;
   * an unrecognised token only logs. A null window fails at `getDecorView`.
   */
  lemma StatusStyleNullReferences(d: Device, w: Option<WindowState>, style: string)
    requires d.sdk >= M && style != ""
    ensures w.None? ==> SetStatusBarStyle(d, w, style) == Step(w, Some(NullPointer))
    ensures w.Some? && !d.insetsController ==>
      SetStatusBarStyle(d, w, style) ==
        Step(w, if LightAppearanceFor(style).Some? then Some(NullPointer) else None)
  {
  }

  /** Below API 21, or with a null window, `setNavigationBarStyle` returns without effect. */
  lemma NavigationStyleGuard(d: Device, w: Option<WindowState>, style: string, colorHex: string)
    requires d.sdk < LOLLIPOP || w.None?
    ensures SetNavigationBarStyle(d, w, style, colorHex) == Step(w, None)
  {
  }

  /** A colour that does not parse raises `IllegalArgumentException` and changes nothing. */
  lemma NavigationBadColorChangesNothing(d: Device, w: WindowState, style: string, colorHex: string)
    requires d.sdk >= LOLLIPOP && d.parseColor(colorHex).None?
    ensures SetNavigationBarStyle(d, Some(w), style, colorHex) ==
      Step(Some(w), Some(IllegalArgument(colorHex)))
  {
  }

  /**
   * A colour that parses becomes the navigation-bar colour, DRAWS_SYSTEM_BAR_BACKGROUNDS
   * is set, TRANSLUCENT_NAVIGATION is cleared, and whatever the style, the other flags,
   * the decor visibility, the status colour and the light-status switch are kept.
   */
  lemma NavigationColorApplied(d: Device, w: WindowState, style: string, colorHex: string)
    requires d.sdk >= LOLLIPOP && d.parseColor(colorHex).Some?
    ensures
      var r := SetNavigationBarStyle(d, Some(w), style, colorHex);
      r.thrown.None? && r.window.Some? &&
      r.window.value.navigationBarColor == d.parseColor(colorHex).value &&
      DrawsSystemBarBackgrounds in r.window.value.flags &&
      TranslucentNavigation !in r.window.value.flags &&
      (forall f :: f != DrawsSystemBarBackgrounds && f != TranslucentNavigation ==>
         (f in r.window.value.flags <==> f in w.flags)) &&
      r.window.value.systemUiVisibility == w.systemUiVisibility &&
      r.window.value.statusBarColor == w.statusBarColor &&
      r.window.value.lightStatusBars == w.lightStatusBars
  {
  }

  /**
   * After a successful parse the light-navigation switch takes the status-bar mapping of
   * the token only from API 23 on, for a non-empty token, with a controller; otherwise it
   * keeps its value (API 21-22, empty or unknown token, null controller).
   */
  lemma NavigationIconStep(d: Device, w: WindowState, style: string, colorHex: string)
    requires d.sdk >= LOLLIPOP && d.parseColor(colorHex).Some?
    ensures
      var r := SetNavigationBarStyle(d, Some(w), style, colorHex);
      r.window.Some? &&
      r.window.value.lightNavigationBars ==
        (if d.sdk >= M && style != "" && d.insetsController && LightAppearanceFor(style).Some?
         then LightAppearanceFor(style).value
         else w.lightNavigationBars)
  {
  }

  /** Each setter, run a second time on what the first run left, changes nothing more. */
  lemma TransparentIdempotent(w: Option<WindowState>, isTransparent: bool)
    ensures SetStatusBarTransparent(SetStatusBarTransparent(w, isTransparent).window, isTransparent) ==
      SetStatusBarTransparent(w, isTransparent)
  {
  }

  lemma StatusStyleIdempotent(d: Device, w: Option<WindowState>, style: string)
    ensures SetStatusBarStyle(d, SetStatusBarStyle(d, w, style).window, style) == SetStatusBarStyle(d, w, style)
  {
  }

  lemma NavigationStyleIdempotent(d: Device, w: Option<WindowState>, style: string, colorHex: string)
    ensures SetNavigationBarStyle(d, SetNavigationBarStyle(d, w, style, colorHex).window, style, colorHex) ==
      SetNavigationBarStyle(d, w, style, colorHex)
  {
    if d.sdk >= LOLLIPOP && w.Some? && d.parseColor(colorHex).Some? {
      var f := w.value.flags + {DrawsSystemBarBackgrounds} - {TranslucentNavigation};
      assert f + {DrawsSystemBarBackgrounds} - {TranslucentNavigation} == f;
    }
  }

  /** The status-style and navigation-style setters touch disjoint parts of the window. */
  lemma StatusAndNavigationCommute(d: Device, w: Option<WindowState>, s1: string, s2: string, colorHex: string)
    requires SetStatusBarStyle(d, w, s1).thrown.None? && SetNavigationBarStyle(d, w, s2, colorHex).thrown.None?
    ensures SetNavigationBarStyle(d, SetStatusBarStyle(d, w, s1).window, s2, colorHex) ==
      SetStatusBarStyle(d, SetNavigationBarStyle(d, w, s2, colorHex).window, s1)
  {
  }
}

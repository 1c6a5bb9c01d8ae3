/**
 * The three private setters of the plugin and the flag clearing done at start-up,
 * each as a function from the window before to the `Step` it produces.
 */
module Setters {
  import opened Wrappers
  import opened Colors
  import opened Chrome

  const STYLE_DEFAULT: string := "default"
  const STYLE_LIGHT_CONTENT: string := "lightcontent"
  const STYLE_DARK_CONTENT: string := "darkcontent"

  /**
   * The value a style token passes to `setAppearanceLight…Bars`, or None for a token
   * that is refused (logged, nothing set). The comparison is exact and case-sensitive.
   */
  function LightAppearanceFor(style: string): (r: Option<bool>)
    ensures r == Some(true) <==> style == STYLE_LIGHT_CONTENT
    ensures r == Some(false) <==> style == STYLE_DEFAULT || style == STYLE_DARK_CONTENT
  {
    if style == STYLE_LIGHT_CONTENT then Some(true)
    else if style == STYLE_DEFAULT || style == STYLE_DARK_CONTENT then Some(false)
    else None
  }

  /** The decor visibility `setStatusBarTransparent` installs. */
  function OverlayVisibility(isTransparent: bool): (r: set<UiFlag>)
    ensures LayoutStable in r
    ensures LayoutFullscreen in r <==> isTransparent
    ensures Visible in r <==> !isTransparent
    ensures forall f :: f in r ==> f == LayoutStable || f == LayoutFullscreen || f == Visible
  {
    if isTransparent then {LayoutStable, LayoutFullscreen} else {LayoutStable, Visible}
  }

  /** `window.clearFlags(FLAG_FORCE_NOT_FULLSCREEN)`, the first statement of the start-up task. */
  function ClearForceNotFullscreen(w: Option<WindowState>): (r: Step)
    ensures r.window.Some? <==> w.Some?
    ensures r.thrown.Some? ==> r.window == w
    ensures w.None? ==> r.thrown == Some(NullPointer)
    ensures w.Some? ==> r.thrown.None? && r.window.value.flags == w.value.flags - {ForceNotFullscreen}
    ensures w.Some? ==> r.window.value == w.value.(flags := r.window.value.flags)
  {
    match w
    case None => Step(w, Some(NullPointer))
    case Some(win) => Step(Some(win.(flags := win.flags - {ForceNotFullscreen})), None)
  }

  /** `setStatusBarTransparent(isTransparent)`. */
  function SetStatusBarTransparent(w: Option<WindowState>, isTransparent: bool): (r: Step)
    ensures r.window.Some? <==> w.Some?
    ensures r.thrown.Some? ==> r.window == w
  {
    match w
    case None => Step(w, Some(NullPointer))
    case Some(win) =>
      var shown := win.(systemUiVisibility := OverlayVisibility(isTransparent));
      Step(Some(if isTransparent then shown.(statusBarColor := TRANSPARENT) else shown), None)
  }

  /** `setStatusBarStyle(style)`: only from API 23 on, and only for a non-empty token. */
  function SetStatusBarStyle(d: Device, w: Option<WindowState>, style: string): (r: Step)
    ensures r.window.Some? <==> w.Some?
    ensures r.thrown.Some? ==> r.window == w
  {
    if d.sdk >= M && style != "" then
      match w
      case None => Step(w, Some(NullPointer))
      case Some(win) =>
        match LightAppearanceFor(style)
        case None => Step(w, None)
        case Some(light) =>
          if d.insetsController then Step(Some(win.(lightStatusBars := light)), None)
          else Step(w, Some(NullPointer))
    else
      Step(w, None)
  }

  /**
   * The icon step of `setNavigationBarStyle`: the value handed to
   * `setAppearanceLightNavigationBars`, or None when that call is not made.
   */
  function NavigationIcons(d: Device, style: string): (r: Option<bool>)
    ensures r.Some? <==> d.sdk >= M && style != "" && d.insetsController && LightAppearanceFor(style).Some?
    ensures r.Some? ==> r == LightAppearanceFor(style)
  {
    if d.sdk >= M && style != "" && d.insetsController then LightAppearanceFor(style) else None
  }

  /**
   * `setNavigationBarStyle(style, colorHex)`: the API-21 and null-window guards, the
   * colour parse before any change, then the flags and the colour, then the icon step.
   */
  function SetNavigationBarStyle(d: Device, w: Option<WindowState>, style: string, colorHex: string): (r: Step)
    ensures r.window.Some? <==> w.Some?
    ensures r.thrown.Some? ==> r.window == w
  {
    if d.sdk < LOLLIPOP || w.None? then
      Step(w, None)
    else
      match d.parseColor(colorHex)
      case None => Step(w, Some(IllegalArgument(colorHex)))
      case Some(color) =>
        var win := w.value;
        var painted := win.(flags := win.flags + {DrawsSystemBarBackgrounds} - {TranslucentNavigation},
                            navigationBarColor := color);
        match NavigationIcons(d, style)
        case None => Step(Some(painted), None)
        case Some(light) => Step(Some(painted.(lightNavigationBars := light)), None)
  }
}

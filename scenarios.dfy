/**
 * Concrete runs on a device from API 23 on with an insets controller, whose colour
 * parser is the hexadecimal one.
 */
module Scenarios {
  import opened Wrappers
  import opened Colors
  import opened Chrome
  import opened Setters
  import opened Dispatch
  import SetterProperties
  import QueueProperties

  function CapableDevice(sdk: int): (d: Device)
    requires sdk >= M
    ensures d.sdk == sdk && d.insetsController
  {
    Device(sdk, true, ParseHexColor)
  }

  lemma MagentaParses()
    ensures ParseHexColor("#FF00FF") == Some(0xFFFF00FF)
  {
    HexValueSnoc("", 'F');
    HexValueSnoc("F", 'F');
    HexValueSnoc("FF", '0');
    HexValueSnoc("FF0", '0');
    HexValueSnoc("FF00", 'F');
    HexValueSnoc("FF00F", 'F');
    assert "" + ['F'] == "F" && "F" + ['F'] == "FF" && "FF" + ['0'] == "FF0";
    assert "FF0" + ['0'] == "FF00" && "FF00" + ['F'] == "FF00F" && "FF00F" + ['F'] == "FF00FF";
    assert "#FF00FF"[1..] == "FF00FF";
  }

  lemma HexValueSnoc(s: string, c: char)
    requires AllHex(s) && IsHexDigit(c)
    ensures AllHex(s + [c]) && HexValue(s + [c]) == HexValue(s) * 16 + DigitValue(c)
  {
  }

  lemma BlackParses()
    ensures ParseHexColor(DEFAULT_NAVIGATION_BAR_COLOR) == Some(0xFF00_0000)
  {
    ParseRgbNotation(0);
    assert "#" + HexDigits(0, 6) == "#000000";
  }

  /** "lightcontent" with "#FF00FF": opaque magenta behind the bar and light icons. */
  lemma NavigationMagentaLight(sdk: int, w: WindowState)
    requires sdk >= M
    ensures SetNavigationBarStyle(CapableDevice(sdk), Some(w), STYLE_LIGHT_CONTENT, "#FF00FF") ==
      Step(Some(w.(flags := w.flags + {DrawsSystemBarBackgrounds} - {TranslucentNavigation},
                   navigationBarColor := 0xFFFF00FF,
                   lightNavigationBars := true)), None)
  {
    MagentaParses();
  }

  /** "not-a-color" is refused: the exception escapes and neither colour nor icons change. */
  lemma NavigationNotAColor(sdk: int, w: WindowState)
    requires sdk >= M
    ensures SetNavigationBarStyle(CapableDevice(sdk), Some(w), STYLE_LIGHT_CONTENT, "not-a-color") ==
      Step(Some(w), Some(IllegalArgument("not-a-color")))
  {
    assert "not-a-color"[0] != '#';
  }

  /**
   * The start-up task with no preference set, on a window that has one: overlay layout,
   * transparent status bar, light status icons, opaque black navigation bar, light
   * navigation icons, FORCE_NOT_FULLSCREEN and TRANSLUCENT_NAVIGATION cleared.
   */
  lemma StartUpOnCapableDevice(sdk: int, w: WindowState)
    requires sdk >= M
    ensures
      var r := ApplyTask(CapableDevice(sdk), Some(w), StartUp(Preferences(None, None, None, None)));
      r.thrown.None? && r.window.Some? &&
      r.window.value.systemUiVisibility == {LayoutStable, LayoutFullscreen} &&
      r.window.value.statusBarColor == TRANSPARENT &&
      r.window.value.lightStatusBars &&
      r.window.value.navigationBarColor == 0xFF00_0000 &&
      r.window.value.lightNavigationBars &&
      r.window.value.flags == w.flags - {ForceNotFullscreen} + {DrawsSystemBarBackgrounds} - {TranslucentNavigation}
  {
    var d := CapableDevice(sdk);
    Text.LowerKeepsLowercase(STYLE_LIGHT_CONTENT);
    QueueProperties.StartUpWithDefaults(d, Some(w));
    var w1 := w.(flags := w.flags - {ForceNotFullscreen});
    var overlaid := SetStatusBarTransparent(Some(w1), true);
    SetterProperties.TransparentReplacesVisibility(Some(w1), true);
    var w2 := overlaid.window.value;
    SetterProperties.StatusStyleApplied(d, w2, STYLE_LIGHT_CONTENT);
    var w3 := w2.(lightStatusBars := true);
    BlackParses();
    SetterProperties.NavigationColorApplied(d, w3, STYLE_LIGHT_CONTENT, DEFAULT_NAVIGATION_BAR_COLOR);
    SetterProperties.NavigationIconStep(d, w3, STYLE_LIGHT_CONTENT, DEFAULT_NAVIGATION_BAR_COLOR);
    var r := SetNavigationBarStyle(d, Some(w3), STYLE_LIGHT_CONTENT, DEFAULT_NAVIGATION_BAR_COLOR);
    assert r.window.value.flags == w3.flags + {DrawsSystemBarBackgrounds} - {TranslucentNavigation};
  }

  /** On API 21-22 the navigation colour is set but the icon switch is left alone. */
  lemma NavigationOnLollipop(w: WindowState, style: string)
    ensures
      var r := SetNavigationBarStyle(Device(22, true, ParseHexColor), Some(w), style, "#000000");
      r.thrown.None? && r.window.Some? &&
      r.window.value.navigationBarColor == 0xFF00_0000 &&
      r.window.value.lightNavigationBars == w.lightNavigationBars
  {
    BlackParses();
  }
}

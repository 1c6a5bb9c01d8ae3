/**
 * What the plugin can see and change of one Android window: the decor view's
 * system-UI visibility, the window's layout flags, the two bar colours and the
 * two "appearance light" switches of the insets controller. Flags are symbolic;
 * every flag the plugin does not name stands as an `Other…` value.
 */
module Chrome {
  import opened Wrappers
  import opened Colors

  /** `View.SYSTEM_UI_FLAG_*` values. */
  datatype UiFlag = LayoutStable | LayoutFullscreen | Visible | OtherUiFlag(bit: nat)

  /** `WindowManager.LayoutParams.FLAG_*` values. */
  datatype LayoutFlag =
    | ForceNotFullscreen
    | Fullscreen
    | DrawsSystemBarBackgrounds
    | TranslucentNavigation
    | OtherLayoutFlag(bit: nat)

  datatype WindowState = WindowState(
    systemUiVisibility: set<UiFlag>,
    flags: set<LayoutFlag>,
    statusBarColor: Color,
    navigationBarColor: Color,
    lightStatusBars: bool,
    lightNavigationBars: bool)

  /** `Build.VERSION_CODES.LOLLIPOP` and `Build.VERSION_CODES.M`. */
  const LOLLIPOP: int := 21
  const M: int := 23

  /**
   * What the plugin takes from the device and cannot change: the SDK level, whether
   * `WindowCompat.getInsetsController` yields a controller, and `Color.parseColor`.
   */
  datatype Device = Device(sdk: int, insetsController: bool, parseColor: string -> Option<Color>)

  /** The unchecked exceptions the plugin's code can raise. */
  datatype Exception = NullPointer | IllegalArgument(colorText: string)

  /**
   * The effect of running a piece of plugin code: the window afterwards (None is a
   * null `window`) and the exception that escaped, if one did.
   */
  datatype Step = Step(window: Option<WindowState>, thrown: Option<Exception>)
}

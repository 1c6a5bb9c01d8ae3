/**
 * The plugin object: the cached `window`, the queue of work handed to the UI thread,
 * and the device it runs on. `initialize` and `execute` only enqueue (except for
 * `_ready`, which answers at once); `RunNextTask` is one turn of the UI thread.
 */
module Plugin {
  import opened Wrappers
  import opened Chrome
  import opened Text
  import Setters
  import opened Dispatch

  /** What `execute` gives back: its boolean and the `_ready` reply, or an escaping exception. */
  datatype Reply = Returned(handled: bool, statusBarVisible: Option<bool>) | Threw(e: Exception)

  class StatusBar {
    const device: Device
    /** Whether the `activity` field is set; it is null until `initialize` runs. */
    var hasActivity: bool
    var window: Option<WindowState>
    var uiQueue: seq<Task>

    /** A plugin before `initialize`: no window yet, nothing scheduled. */
    constructor (device: Device)
      ensures this.device == device && !hasActivity && window == None && uiQueue == []
    {
      this.device := device;
      hasActivity := false;
      window := None;
      uiQueue := [];
    }

    /**
     * `initialize`: caches the activity's window (None when it has none) and schedules
     * the start-up task.
     */
    method Initialize(activityWindow: Option<WindowState>, prefs: Preferences)
      modifies this
      ensures hasActivity && window == activityWindow
      ensures uiQueue == old(uiQueue) + [StartUp(prefs)]
    {
      hasActivity := true;
      window := activityWindow;
      uiQueue := uiQueue + [StartUp(prefs)];
    }

    /** The `_ready` branch: status bar visible exactly when FLAG_FULLSCREEN is not set. */
    method Ready() returns (r: Reply)
      ensures window.None? ==> r == Threw(NullPointer)
      ensures window.Some? ==> r == Returned(true, Some(Fullscreen !in window.value.flags))
    {
      if window.None? {
        return Threw(NullPointer);
      }
      var visible := Fullscreen !in window.value.flags;
      return Returned(true, Some(visible));
    }

    /** `execute(action, args)`. */
    method Execute(action: string, args: seq<Arg>) returns (r: Reply)
      modifies this`uiQueue
      ensures CommandFor(action, args).ReadVisibility? ==>
        uiQueue == old(uiQueue) &&
        r == (if window.None? then Threw(NullPointer)
              else Returned(true, Some(Fullscreen !in window.value.flags)))
      ensures CommandFor(action, args).Schedule? && !hasActivity ==>
        uiQueue == old(uiQueue) && r == Threw(NullPointer)
      ensures CommandFor(action, args).Schedule? && hasActivity ==>
        uiQueue == old(uiQueue) + CommandFor(action, args).tasks && r == Returned(true, None)
      ensures CommandFor(action, args).Unhandled? ==>
        uiQueue == old(uiQueue) && r == Returned(false, None)
    {
      if action == ACTION_READY {
        r := Ready();
      } else if CommandFor(action, args).Schedule? && !hasActivity {
        // `activity.runOnUiThread` on the null activity of a plugin not yet initialized
        r := Threw(NullPointer);
      } else if action == ACTION_OVERLAYS_WEB_VIEW {
        uiQueue := uiQueue + [OverlaysWebView(args)];
        r := Returned(true, None);
      } else if action == ACTION_STYLE_DEFAULT {
        uiQueue := uiQueue + [StatusBarStyle(Setters.STYLE_DEFAULT)];
        r := Returned(true, None);
      } else if action == ACTION_STYLE_LIGHT_CONTENT {
        uiQueue := uiQueue + [StatusBarStyle(Setters.STYLE_LIGHT_CONTENT)];
        uiQueue := uiQueue + [NavigationBarStyle(Setters.STYLE_LIGHT_CONTENT, args)];
        r := Returned(true, None);
      } else if action == ACTION_STYLE_DARK_CONTENT {
        uiQueue := uiQueue + [StatusBarStyle(Setters.STYLE_DARK_CONTENT)];
        uiQueue := uiQueue + [NavigationBarStyle(Setters.STYLE_DARK_CONTENT, args)];
        r := Returned(true, None);
      } else {
        r := Returned(false, None);
      }
    }

    /** One turn of the UI thread: take the oldest task and run it. */
    method RunNextTask() returns (thrown: Option<Exception>)
      requires uiQueue != []
      modifies this`window, this`uiQueue
      ensures uiQueue == old(uiQueue[1..])
      ensures Step(window, thrown) == ApplyTask(device, old(window), old(uiQueue[0]))
    {
      var task := uiQueue[0];
      uiQueue := uiQueue[1..];
      thrown := PerformTask(task);
    }

    /** The body of one `runOnUiThread` lambda. */
    method PerformTask(t: Task) returns (thrown: Option<Exception>)
      modifies this`window
      ensures Step(window, thrown) == ApplyTask(device, old(window), t)
    {
      match t
      case StartUp(prefs) =>
        if window.None? {
          return Some(NullPointer);
        }
        window := Some(window.value.(flags := window.value.flags - {ForceNotFullscreen}));
        thrown := SetStatusBarTransparent(OrDefault(prefs.statusBarOverlaysWebView, DEFAULT_OVERLAYS_WEB_VIEW));
        if thrown.Some? {
          return;
        }
        thrown := SetStatusBarStyle(Lower(OrDefault(prefs.statusBarStyle, Setters.STYLE_LIGHT_CONTENT)));
        if thrown.Some? {
          return;
        }
        var navBarStyle := Lower(OrDefault(prefs.navigationBarStyle, Setters.STYLE_LIGHT_CONTENT));
        var navBarColor := OrDefault(prefs.navigationBarColor, DEFAULT_NAVIGATION_BAR_COLOR);
        thrown := SetNavigationBarStyle(navBarStyle, navBarColor);
      case OverlaysWebView(args) =>
        var b := GetBoolean(args, 0);
        if b.None? {
          return None;
        }
        thrown := SetStatusBarTransparent(b.value);
      case StatusBarStyle(style) =>
        thrown := SetStatusBarStyle(style);
      case NavigationBarStyle(style, args) =>
        var color := GetString(args, 0);
        if color.None? {
          return None;
        }
        thrown := SetNavigationBarStyle(style, color.value);
    }

    /** `setStatusBarTransparent`. */
    method SetStatusBarTransparent(isTransparent: bool) returns (thrown: Option<Exception>)
      modifies this`window
      ensures Step(window, thrown) == Setters.SetStatusBarTransparent(old(window), isTransparent)
    {
      if window.None? {
        return Some(NullPointer);
      }
      var visibility := Setters.OverlayVisibility(isTransparent);
      window := Some(window.value.(systemUiVisibility := visibility));
      if isTransparent {
        window := Some(window.value.(statusBarColor := Colors.TRANSPARENT));
      }
      return None;
    }

    /** `setStatusBarStyle`. */
    method SetStatusBarStyle(style: string) returns (thrown: Option<Exception>)
      modifies this`window
      ensures Step(window, thrown) == Setters.SetStatusBarStyle(device, old(window), style)
    {
      thrown := None;
      if device.sdk >= M && style != "" {
        if window.None? {
          return Some(NullPointer);
        }
        if style == Setters.STYLE_LIGHT_CONTENT {
          if !device.insetsController {
            return Some(NullPointer);
          }
          window := Some(window.value.(lightStatusBars := true));
        } else if style == Setters.STYLE_DEFAULT || style == Setters.STYLE_DARK_CONTENT {
          if !device.insetsController {
            return Some(NullPointer);
          }
          window := Some(window.value.(lightStatusBars := false));
        }
      }
    }

    /** `setNavigationBarStyle`. */
    method SetNavigationBarStyle(style: string, colorHex: string) returns (thrown: Option<Exception>)
      modifies this`window
      ensures Step(window, thrown) == Setters.SetNavigationBarStyle(device, old(window), style, colorHex)
    {
      if device.sdk < LOLLIPOP {
        return None;
      }
      if window.None? {
        return None;
      }
      var backgroundColor := device.parseColor(colorHex);
      if backgroundColor.None? {
        return Some(IllegalArgument(colorHex));
      }
      window := Some(window.value.(flags := window.value.flags + {DrawsSystemBarBackgrounds}));
      window := Some(window.value.(flags := window.value.flags - {TranslucentNavigation}));
      window := Some(window.value.(navigationBarColor := backgroundColor.value));
      thrown := None;
      if device.sdk >= M && style != "" {
        if device.insetsController {
          if style == Setters.STYLE_LIGHT_CONTENT {
            window := Some(window.value.(lightNavigationBars := true));
          } else if style == Setters.STYLE_DEFAULT || style == Setters.STYLE_DARK_CONTENT {
            window := Some(window.value.(lightNavigationBars := false));
          }
        }
      }
    }
  }
}

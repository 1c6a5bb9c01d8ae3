/** What the dispatcher and the UI-thread queue promise over several tasks. */
module QueueProperties {
  import opened Wrappers
  import opened Chrome
  import opened Text
  import opened Setters
  import opened Dispatch
  import SetterProperties

  /** Running `a + b` is running `a` and then, unless it threw, `b` from where `a` left off. */
  lemma {:induction false} RunTasksAppend(d: Device, w: Option<WindowState>, a: seq<Task>, b: seq<Task>)
    ensures RunTasks(d, w, a + b) ==
      (var first := RunTasks(d, w, a);
       if first.thrown.Some? then first else RunTasks(d, first.window, b))
    decreases |a|
  {
    if a == [] {
      assert a + b == b;
    } else {
      assert (a + b)[0] == a[0];
      assert (a + b)[1..] == a[1..] + b;
      var step := ApplyTask(d, w, a[0]);
      if step.thrown.None? {
        RunTasksAppend(d, step.window, a[1..], b);
      }
    }
  }

  /** Any single task, run again on what it left, changes nothing more and fails the same way. */
  lemma ApplyTaskIdempotent(d: Device, w: Option<WindowState>, t: Task)
    ensures ApplyTask(d, ApplyTask(d, w, t).window, t) == ApplyTask(d, w, t)
  {
    match t
    case StartUp(prefs) =>
      if w.Some? {
        StartUpIdempotent(d, w.value, prefs);
      }
    case OverlaysWebView(args) =>
      if GetBoolean(args, 0).Some? {
        SetterProperties.TransparentIdempotent(w, GetBoolean(args, 0).value);
      }
    case StatusBarStyle(style) =>
      SetterProperties.StatusStyleIdempotent(d, w, style);
    case NavigationBarStyle(style, args) =>
      if GetString(args, 0).Some? {
        SetterProperties.NavigationStyleIdempotent(d, w, style, GetString(args, 0).value);
      }
  }

  lemma StartUpIdempotent(d: Device, w: WindowState, prefs: Preferences)
    ensures RunStartUp(d, RunStartUp(d, Some(w), prefs).window, prefs) == RunStartUp(d, Some(w), prefs)
  {
    var overlay := OrDefault(prefs.statusBarOverlaysWebView, DEFAULT_OVERLAYS_WEB_VIEW);
    var sStyle := Lower(OrDefault(prefs.statusBarStyle, STYLE_LIGHT_CONTENT));
    var nStyle := Lower(OrDefault(prefs.navigationBarStyle, STYLE_LIGHT_CONTENT));
    var color := OrDefault(prefs.navigationBarColor, DEFAULT_NAVIGATION_BAR_COLOR);
    var w1 := w.(flags := w.flags - {ForceNotFullscreen});
    var w2 := SetStatusBarTransparent(Some(w1), overlay).window.value;
    var s3 := SetStatusBarStyle(d, Some(w2), sStyle);
    if s3.thrown.None? {
      var w3 := s3.window.value;
      var s4 := SetNavigationBarStyle(d, Some(w3), nStyle, color);
      var w4 := s4.window.value;
      // The second run sees the window the first one left: each of its steps keeps it.
      var flags := if s4.thrown.None? then w4.flags else w3.flags;
      assert flags - {ForceNotFullscreen} == flags;
      SetterProperties.NavigationStyleIdempotent(d, Some(w3), nStyle, color);
    } else {
      assert w2.flags - {ForceNotFullscreen} == w2.flags;
    }
  }

  /** The tasks of any handled action, run twice, give what running them once gives. */
  lemma ScheduledTwiceIsOnce(d: Device, w: Option<WindowState>, action: string, args: seq<Arg>)
    requires CommandFor(action, args).Schedule?
    ensures
      var ts := CommandFor(action, args).tasks;
      RunTasks(d, w, ts + ts) == RunTasks(d, w, ts)
  {
    var ts := CommandFor(action, args).tasks;
    RunTasksAppend(d, w, ts, ts);
    var once := RunTasks(d, w, ts);
    if once.thrown.None? {
      if |ts| == 1 {
        ApplyTaskIdempotent(d, w, ts[0]);
      } else {
        assert |ts| == 2;
        var status, nav := ts[0], ts[1];
        var s1 := ApplyTask(d, w, status);
        var s2 := ApplyTask(d, s1.window, nav);
        // status; nav; status; nav == status; status; nav; nav == status; nav
        assert RunTasks(d, once.window, ts) == RunTasks(d, s2.window, ts);
        if GetString(nav.args, 0).Some? {
          var color := GetString(nav.args, 0).value;
          SetterProperties.StatusAndNavigationCommute(d, s1.window, status.style, nav.style, color);
          SetterProperties.StatusStyleIdempotent(d, w, status.style);
          SetterProperties.NavigationStyleIdempotent(d, s1.window, nav.style, color);
        } else {
          SetterProperties.StatusStyleIdempotent(d, w, status.style);
        }
      }
    }
  }

  /**
   * `styleLightContent` / `styleDarkContent`: the status step, then the navigation step
   * with `args[0]`; a missing colour argument skips only the navigation step.
   */
  lemma StyleContentOrder(d: Device, w: Option<WindowState>, action: string, args: seq<Arg>)
    requires action == ACTION_STYLE_LIGHT_CONTENT || action == ACTION_STYLE_DARK_CONTENT
    ensures
      var style := if action == ACTION_STYLE_LIGHT_CONTENT then STYLE_LIGHT_CONTENT else STYLE_DARK_CONTENT;
      var status := SetStatusBarStyle(d, w, style);
      RunTasks(d, w, CommandFor(action, args).tasks) ==
        (if status.thrown.Some? || GetString(args, 0).None? then status
         else SetNavigationBarStyle(d, status.window, style, GetString(args, 0).value))
  {
  }

  /** `styleDefault` touches at most the light-status switch. */
  lemma StyleDefaultTouchesOnlyStatus(d: Device, w: WindowState, args: seq<Arg>)
    ensures
      var r := RunTasks(d, Some(w), CommandFor(ACTION_STYLE_DEFAULT, args).tasks);
      r == SetStatusBarStyle(d, Some(w), STYLE_DEFAULT) &&
      r.window.Some? && r.window.value == w.(lightStatusBars := r.window.value.lightStatusBars)
  {
  }

  /**
   * `overlaysWebView` as a whole: a boolean argument sets the overlay, and a missing or
   * malformed one is caught and logged, leaving the window exactly as it was.
   */
  lemma OverlayDispatch(d: Device, w: Option<WindowState>, args: seq<Arg>)
    ensures
      RunTasks(d, w, CommandFor(ACTION_OVERLAYS_WEB_VIEW, args).tasks) ==
        (match GetBoolean(args, 0)
         case None => Step(w, None)
         case Some(b) => SetStatusBarTransparent(w, b))
  {
  }

  /**
   * `initialize` schedules one task that clears FORCE_NOT_FULLSCREEN and then, with no
   * preference set, applies true, "lightcontent", "lightcontent" and "#000000" in that order.
   */
  lemma StartUpWithDefaults(d: Device, w: Option<WindowState>)
    ensures
      var cleared := ClearForceNotFullscreen(w);
      var overlaid := SetStatusBarTransparent(cleared.window, true);
      var styled := SetStatusBarStyle(d, overlaid.window, STYLE_LIGHT_CONTENT);
      RunStartUp(d, w, Preferences(None, None, None, None)) ==
        (if cleared.thrown.Some? then cleared
         else if overlaid.thrown.Some? then overlaid
         else if styled.thrown.Some? then styled
         else SetNavigationBarStyle(d, styled.window, STYLE_LIGHT_CONTENT, "#000000"))
  {
    var prefs := Preferences(None, None, None, None);
    LowerKeepsLowercase(STYLE_LIGHT_CONTENT);
    assert Lower(OrDefault(prefs.statusBarStyle, STYLE_LIGHT_CONTENT)) == STYLE_LIGHT_CONTENT;
    assert Lower(OrDefault(prefs.navigationBarStyle, STYLE_LIGHT_CONTENT)) == STYLE_LIGHT_CONTENT;
  }

  /** Overlay tasks only: the task whose argument was read last decides the decor visibility. */
  function LastOverlayArgument(ts: seq<Task>): (r: Option<bool>)
    requires forall i :: 0 <= i < |ts| ==> ts[i].OverlaysWebView?
  {
    if ts == [] then None
    else
      var later := LastOverlayArgument(ts[1..]);
      if later.Some? then later else GetBoolean(ts[0].args, 0)
  }

  /**
   * Last write wins: after a run of `overlaysWebView` tasks on a window, the decor
   * visibility is the one chosen by the last well-formed argument, or the old one if none was.
   */
  lemma {:induction false} LastOverlayWins(d: Device, w: WindowState, ts: seq<Task>)
    requires forall i :: 0 <= i < |ts| ==> ts[i].OverlaysWebView?
    ensures
      var r := RunTasks(d, Some(w), ts);
      r.thrown.None? && r.window.Some? &&
      r.window.value.systemUiVisibility ==
        (match LastOverlayArgument(ts)
         case None => w.systemUiVisibility
         case Some(b) => OverlayVisibility(b))
    decreases |ts|
  {
    if ts != [] {
      var first := ApplyTask(d, Some(w), ts[0]);
      assert first.thrown.None? && first.window.Some?;
      LastOverlayWins(d, first.window.value, ts[1..]);
    }
  }

  /**
   * No task ever sets FLAG_FULLSCREEN, so once it is clear `_ready` keeps answering that
   * the status bar is visible, whatever runs in between.
   */
  lemma {:induction false} FullscreenNeverSet(d: Device, w: WindowState, ts: seq<Task>)
    requires Fullscreen !in w.flags
    ensures RunTasks(d, Some(w), ts).window.Some?
    ensures Fullscreen !in RunTasks(d, Some(w), ts).window.value.flags
    decreases |ts|
  {
    if ts != [] {
      var first := ApplyTask(d, Some(w), ts[0]);
      TaskKeepsFullscreenClear(d, w, ts[0]);
      if first.thrown.None? {
        FullscreenNeverSet(d, first.window.value, ts[1..]);
      }
    }
  }

  lemma TaskKeepsFullscreenClear(d: Device, w: WindowState, t: Task)
    requires Fullscreen !in w.flags
    ensures ApplyTask(d, Some(w), t).window.Some?
    ensures Fullscreen !in ApplyTask(d, Some(w), t).window.value.flags
  {
    match t
    case StartUp(prefs) =>
      var w1 := w.(flags := w.flags - {ForceNotFullscreen});
      var overlay := OrDefault(prefs.statusBarOverlaysWebView, DEFAULT_OVERLAYS_WEB_VIEW);
      var w2 := SetStatusBarTransparent(Some(w1), overlay).window.value;
      var s3 := SetStatusBarStyle(d, Some(w2), Lower(OrDefault(prefs.statusBarStyle, STYLE_LIGHT_CONTENT)));
      assert Fullscreen !in s3.window.value.flags;
      NavigationKeepsFullscreenClear(d, s3.window.value,
        Lower(OrDefault(prefs.navigationBarStyle, STYLE_LIGHT_CONTENT)),
        OrDefault(prefs.navigationBarColor, DEFAULT_NAVIGATION_BAR_COLOR));
    case OverlaysWebView(_) =>
    case StatusBarStyle(_) =>
    case NavigationBarStyle(style, args) =>
      if GetString(args, 0).Some? {
        NavigationKeepsFullscreenClear(d, w, style, GetString(args, 0).value);
      }
  }

  lemma NavigationKeepsFullscreenClear(d: Device, w: WindowState, style: string, colorHex: string)
    requires Fullscreen !in w.flags
    ensures SetNavigationBarStyle(d, Some(w), style, colorHex).window.Some?
    ensures Fullscreen !in SetNavigationBarStyle(d, Some(w), style, colorHex).window.value.flags
  {
  }
}

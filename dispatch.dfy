/**
 * The work `initialize` and `execute` hand to the UI thread, and which of it each
 * action name selects. Each `runOnUiThread` call adds one `Task`; tasks run in the
 * order they were issued.
 */
module Dispatch {
  import opened Wrappers
  import opened Chrome
  import opened Text
  import Setters

  const ACTION_READY: string := "_ready"
  const ACTION_OVERLAYS_WEB_VIEW: string := "overlaysWebView"
  const ACTION_STYLE_DEFAULT: string := "styleDefault"
  const ACTION_STYLE_LIGHT_CONTENT: string := "styleLightContent"
  const ACTION_STYLE_DARK_CONTENT: string := "styleDarkContent"

  /** One argument of the bridge call, as far as the plugin reads it. */
  datatype Arg = JsonBoolean(b: bool) | JsonString(s: string) | JsonOther

  /** `args.getBoolean(i)`: None stands for the `JSONException` of a missing or non-boolean value. */
  function GetBoolean(args: seq<Arg>, i: nat): (r: Option<bool>)
    ensures r.Some? <==> i < |args| && args[i].JsonBoolean?
    ensures r.Some? ==> r.value == args[i].b
  {
    if i < |args| && args[i].JsonBoolean? then Some(args[i].b) else None
  }

  /** `args.getString(i)`: None stands for the `JSONException` of a missing value. */
  function GetString(args: seq<Arg>, i: nat): (r: Option<string>)
    ensures r.Some? <==> i < |args| && args[i].JsonString?
    ensures r.Some? ==> r.value == args[i].s
  {
    if i < |args| && args[i].JsonString? then Some(args[i].s) else None
  }

  /** The four preferences read at start-up; None is a preference that is not set. */
  datatype Preferences = Preferences(
    statusBarOverlaysWebView: Option<bool>,
    statusBarStyle: Option<string>,
    navigationBarStyle: Option<string>,
    navigationBarColor: Option<string>)

  /** The values the start-up task uses for unset preferences. */
  const DEFAULT_OVERLAYS_WEB_VIEW: bool := true
  const DEFAULT_NAVIGATION_BAR_COLOR: string := "#000000"

  /** A preference's value, or the documented default when it is not set. */
  function OrDefault<T>(o: Option<T>, default: T): (r: T)
    ensures o.Some? ==> r == o.value
    ensures o.None? ==> r == default
  {
    match o
    case Some(v) => v
    case None => default
  }

  /** The bodies of the lambdas passed to `runOnUiThread`. */
  datatype Task =
    | StartUp(prefs: Preferences)
    | OverlaysWebView(args: seq<Arg>)
    | StatusBarStyle(style: string)
    | NavigationBarStyle(style: string, args: seq<Arg>)

  /** The start-up task: clear FORCE_NOT_FULLSCREEN, then the three setters in turn. */
  function RunStartUp(d: Device, w: Option<WindowState>, prefs: Preferences): (r: Step)
    ensures r.window.Some? <==> w.Some?
    ensures w.None? ==> r == Step(w, Some(NullPointer))
    ensures r.thrown.None? ==> ForceNotFullscreen !in r.window.value.flags
  {
    var cleared := Setters.ClearForceNotFullscreen(w);
    if cleared.thrown.Some? then cleared else
    var overlaid := Setters.SetStatusBarTransparent(
      cleared.window, OrDefault(prefs.statusBarOverlaysWebView, DEFAULT_OVERLAYS_WEB_VIEW));
    if overlaid.thrown.Some? then overlaid else
    var styled := Setters.SetStatusBarStyle(
      d, overlaid.window, Lower(OrDefault(prefs.statusBarStyle, Setters.STYLE_LIGHT_CONTENT)));
    if styled.thrown.Some? then styled else
    Setters.SetNavigationBarStyle(
      d, styled.window,
      Lower(OrDefault(prefs.navigationBarStyle, Setters.STYLE_LIGHT_CONTENT)),
      OrDefault(prefs.navigationBarColor, DEFAULT_NAVIGATION_BAR_COLOR))
  }

  /** Running one task; a caught `JSONException` only skips the setter it guards. */
  function ApplyTask(d: Device, w: Option<WindowState>, t: Task): (r: Step)
    ensures r.window.Some? <==> w.Some?
  {
    match t
    case StartUp(prefs) => RunStartUp(d, w, prefs)
    case OverlaysWebView(args) =>
      (match GetBoolean(args, 0)
       case None => Step(w, None)
       case Some(b) => Setters.SetStatusBarTransparent(w, b))
    case StatusBarStyle(style) => Setters.SetStatusBarStyle(d, w, style)
    case NavigationBarStyle(style, args) =>
      (match GetString(args, 0)
       case None => Step(w, None)
       case Some(color) => Setters.SetNavigationBarStyle(d, w, style, color))
  }

  /**
   * The UI thread running a queue of tasks in order. An exception that escapes a
   * task is not caught by anyone and ends the thread: no later task runs.
   */
  function RunTasks(d: Device, w: Option<WindowState>, ts: seq<Task>): (r: Step)
    ensures r.window.Some? <==> w.Some?
    ensures ts == [] ==> r == Step(w, None)
    decreases |ts|
  {
    if ts == [] then Step(w, None)
    else
      var first := ApplyTask(d, w, ts[0]);
      if first.thrown.Some? then first else RunTasks(d, first.window, ts[1..])
  }

  /** What `execute` does with an action: answer at once, schedule tasks, or decline. */
  datatype Command = ReadVisibility | Schedule(tasks: seq<Task>) | Unhandled

  function CommandFor(action: string, args: seq<Arg>): (c: Command)
    ensures c.ReadVisibility? <==> action == ACTION_READY
    ensures c.Unhandled? <==> action !in {ACTION_READY, ACTION_OVERLAYS_WEB_VIEW, ACTION_STYLE_DEFAULT,
                                          ACTION_STYLE_LIGHT_CONTENT, ACTION_STYLE_DARK_CONTENT}
  {
    if action == ACTION_READY then ReadVisibility
    else if action == ACTION_OVERLAYS_WEB_VIEW then Schedule([OverlaysWebView(args)])
    else if action == ACTION_STYLE_DEFAULT then Schedule([StatusBarStyle(Setters.STYLE_DEFAULT)])
    else if action == ACTION_STYLE_LIGHT_CONTENT then
      Schedule([StatusBarStyle(Setters.STYLE_LIGHT_CONTENT), NavigationBarStyle(Setters.STYLE_LIGHT_CONTENT, args)])
    else if action == ACTION_STYLE_DARK_CONTENT then
      Schedule([StatusBarStyle(Setters.STYLE_DARK_CONTENT), NavigationBarStyle(Setters.STYLE_DARK_CONTENT, args)])
    else Unhandled
  }
}

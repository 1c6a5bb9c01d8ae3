# Status-bar plugin for Android, modelled in Dafny

This project models the Android half of a Cordova plugin that controls the device's
system chrome. That chrome is the status bar at the top and the navigation bar at the edge.
The plugin object keeps one `window` and a queue of work for the UI thread.
`initialize` caches the window and schedules a start-up task.
`execute` answers the action `_ready` at once from the window's flags. It maps `overlaysWebView`, `styleDefault`,
`styleLightContent` and `styleDarkContent` onto three private setters, each run later on the UI thread.
The setters are `setStatusBarTransparent`, `setStatusBarStyle` and `setNavigationBarStyle`.

The window is the record `Chrome.WindowState`, with six parts:
- the decor view's system-UI visibility, a set of symbolic `SYSTEM_UI_FLAG_*` values;
- the window's layout flags, a set of symbolic `FLAG_*` values;
- the status-bar colour and the navigation-bar colour, as 32-bit ARGB patterns;
- the two switches given to `setAppearanceLightStatusBars` and `setAppearanceLightNavigationBars`.

`Chrome.Device` holds what the plugin reads but never changes:
- the SDK level, with the thresholds `LOLLIPOP` = 21 and `M` = 23;
- whether an insets controller is obtained;
- `Color.parseColor`, a function `string -> Option<Color>`.

Running plugin code yields a `Chrome.Step`: the window afterwards, plus any unchecked exception that escaped it.
The model has two kinds: `NullPointer` (a null activity, window or controller) and
`IllegalArgument` (a colour that does not parse; see "## Left out" for the empty colour).

Module layout:
- `Colors`: ARGB colours, and the hexadecimal part of `Color.parseColor` (`#RRGGBB` gets an opaque alpha, `#AARRGGBB` is kept as written).
- `Setters`: the setters as functions from the window before to the resulting `Step`.
- `Dispatch`: the tasks `runOnUiThread` receives, the UI thread running them first-in first-out (`RunTasks`), and the action table.
- `Plugin.StatusBar`: the class with the mutable `hasActivity`, `window` and `uiQueue` fields.
  Its methods mirror the Java methods and are proved equal to the functions above.
- `SetterProperties`, `QueueProperties`, `Scenarios`: what the code promises.

Behaviour of the code a reader may not expect:
- `_ready` answers whether `FLAG_FULLSCREEN` is absent. It does not report the overlay state, and no plugin code ever sets that flag (`QueueProperties.FullscreenNeverSet`).
- The plugin keeps no record of the requested style. On an SDK below 23, `setStatusBarStyle` does nothing at all.
- A preference colour that does not parse is not replaced by black. The start-up task raises `IllegalArgumentException`, and nothing catches it. An unknown preference style is not replaced by `lightcontent` either: it is logged and ignored.
- Style tokens are compared exactly and case-sensitively. Only the start-up task lower-cases the preference values first.
- A bad colour in `styleLightContent`/`styleDarkContent` is not caught. `execute` catches only `JSONException`, and the parse runs later, inside the UI task.

## Model

| member | source | states |
|---|---|---|
| Text.Lower | src/android/StatusBar.java:77-79 | the lower-cased preference has the same length, maps each character by ASCII lower-casing and has no capitals left |
| Text.LowerKeepsLowercase | src/android/StatusBar.java:77-79 | lower-casing leaves a token without capitals, such as "lightcontent", unchanged |
| Text.LowerIdempotent | src/android/StatusBar.java:77-79 | lower-casing twice equals lower-casing once |
| Colors.ParseHexColor | src/android/StatusBar.java:196-206 | the colour parses exactly when it is '#' and 6 or 8 hex digits; 6 digits get alpha 0xFF, 8 digits are taken as they stand |
| Colors.HexValue | src/android/StatusBar.java:198 | a string of k hex digits denotes a number below 16^k |
| Colors.ParseArgbNotation | src/android/StatusBar.java:198 | parsing the `#AARRGGBB` notation of any colour gives that colour back |
| Colors.ParseRgbNotation | src/android/StatusBar.java:198 | parsing `#RRGGBB` gives the same red, green and blue with an opaque alpha |
| Colors.HexDigitsRoundTrip | src/android/StatusBar.java:198 | reading back the k hex digits written for n < 16^k gives n |
| Setters.LightAppearanceFor | src/android/StatusBar.java:164-170 | "lightcontent" selects true, exactly "default" or "darkcontent" selects false, every other token selects nothing |
| Setters.ClearForceNotFullscreen | src/android/StatusBar.java:73-74 | a null window throws NullPointerException; otherwise FORCE_NOT_FULLSCREEN is removed from the flags and every other flag and field is kept |
| Setters.OverlayVisibility | src/android/StatusBar.java:147-149 | the installed visibility always holds LAYOUT_STABLE, holds LAYOUT_FULLSCREEN exactly for true and VISIBLE exactly for false, and nothing else |
| Setters.SetStatusBarTransparent | src/android/StatusBar.java:145-156 | the window reference is unchanged; an exception leaves the window as it was |
| Setters.SetStatusBarStyle | src/android/StatusBar.java:158-172 | the window reference is unchanged; an exception leaves the window as it was |
| Setters.NavigationIcons | src/android/StatusBar.java:216-239 | the icon call is made exactly when the SDK is 23 or more, the token is non-empty and recognised, and a controller exists; it then uses the status-bar mapping |
| Setters.SetNavigationBarStyle | src/android/StatusBar.java:174-241 | all or nothing: an exception leaves the window as it was; the window reference is unchanged |
| Dispatch.GetBoolean | src/android/StatusBar.java:106-108 | the boolean argument is read exactly when it is present and a boolean |
| Dispatch.GetString | src/android/StatusBar.java:121-124 | the colour argument is read exactly when it is present and a string |
| Dispatch.OrDefault | src/android/StatusBar.java:76-80 | a set preference is used as it is; an unset one takes its documented default |
| Dispatch.RunStartUp | src/android/StatusBar.java:72-82 | the start-up lambda keeps the window reference; a null window throws at once; a run that does not throw leaves FORCE_NOT_FULLSCREEN cleared |
| Dispatch.ApplyTask | src/android/StatusBar.java:104-137 | no task changes whether the window is null |
| Dispatch.RunTasks | src/android/StatusBar.java:117-137 | the queue never changes whether the window is null, and an empty queue changes nothing |
| Dispatch.CommandFor | src/android/StatusBar.java:97-142 | only `_ready` answers at once; exactly the five action names are handled, and every other name is declined |
| Plugin.StatusBar.constructor | src/android/StatusBar.java:54-55 | a new plugin has no activity, no window and nothing scheduled |
| Plugin.StatusBar.Initialize | src/android/StatusBar.java:65-83 | the activity is set, the window becomes the activity's and one start-up task is appended to the queue |
| Plugin.StatusBar.Ready | src/android/StatusBar.java:98-101 | replies true exactly when FLAG_FULLSCREEN is absent; a null window throws |
| Plugin.StatusBar.Execute | src/android/StatusBar.java:94-143 | `_ready` changes nothing; the other four actions append their tasks in issue order and return true, or throw NullPointerException with nothing queued when the activity is still null; an unknown action returns false and changes nothing; the window is never touched |
| Plugin.StatusBar.RunNextTask | src/android/StatusBar.java:72-82 | takes the oldest task off the queue and leaves the window as `ApplyTask` says; the activity is untouched |
| Plugin.StatusBar.PerformTask | src/android/StatusBar.java:72-82 | running a lambda body gives the window and exception `ApplyTask` gives |
| Plugin.StatusBar.SetStatusBarTransparent | src/android/StatusBar.java:145-156 | the new window and exception are those of `Setters.SetStatusBarTransparent` |
| Plugin.StatusBar.SetStatusBarStyle | src/android/StatusBar.java:158-172 | the new window and exception are those of `Setters.SetStatusBarStyle` |
| Plugin.StatusBar.SetNavigationBarStyle | src/android/StatusBar.java:174-241 | the new window and exception are those of `Setters.SetNavigationBarStyle` |
| SetterProperties.TransparentReplacesVisibility | src/android/StatusBar.java:147-155 | visibility becomes {LAYOUT_STABLE, LAYOUT_FULLSCREEN} or {LAYOUT_STABLE, VISIBLE}; the status colour becomes TRANSPARENT only for true; flags and all else are kept; a null window throws |
| SetterProperties.StatusStyleUngated | src/android/StatusBar.java:159 | below API 23, or for an empty token, nothing changes and nothing is thrown |
| SetterProperties.StatusStyleApplied | src/android/StatusBar.java:164-170 | "lightcontent" sets light-status true, "default"/"darkcontent" set it false, another token changes nothing; no other field moves |
| SetterProperties.StatusStyleNullReferences | src/android/StatusBar.java:161-167 | a null window throws; a null controller throws only for a recognised token; neither changes the window |
| SetterProperties.NavigationStyleGuard | src/android/StatusBar.java:177-194 | below API 21, or with a null window, returns with no change and no exception |
| SetterProperties.NavigationBadColorChangesNothing | src/android/StatusBar.java:196-206 | an unparseable colour throws IllegalArgumentException and leaves every window field unchanged |
| SetterProperties.NavigationColorApplied | src/android/StatusBar.java:209-213 | a parsed colour becomes the nav colour; DRAWS_SYSTEM_BAR_BACKGROUNDS is set and TRANSLUCENT_NAVIGATION cleared; the other flags, visibility, status colour and light-status stay, whatever the style |
| SetterProperties.NavigationIconStep | src/android/StatusBar.java:216-239 | light-nav takes the token's mapping only on API 23 or later, for a non-empty recognised token, with a controller; otherwise it keeps its value |
| SetterProperties.TransparentIdempotent | src/android/StatusBar.java:145-156 | applying it twice equals applying it once |
| SetterProperties.StatusStyleIdempotent | src/android/StatusBar.java:158-172 | applying it twice equals applying it once |
| SetterProperties.NavigationStyleIdempotent | src/android/StatusBar.java:174-241 | applying it twice equals applying it once |
| SetterProperties.StatusAndNavigationCommute | src/android/StatusBar.java:117-125 | the status-style and navigation-style setters commute when neither throws |
| QueueProperties.RunTasksAppend | src/android/StatusBar.java:117-137 | running `a + b` runs `a` and then, unless it threw, `b` from where `a` stopped |
| QueueProperties.ApplyTaskIdempotent | src/android/StatusBar.java:104-137 | every task, run again on what it left, gives the same window and exception |
| QueueProperties.StartUpIdempotent | src/android/StatusBar.java:72-82 | the start-up task, run again on what it left, gives the same window and exception, even when it stopped part-way |
| QueueProperties.ScheduledTwiceIsOnce | src/android/StatusBar.java:103-138 | running the tasks of any handled action twice equals running them once |
| QueueProperties.StyleContentOrder | src/android/StatusBar.java:117-138 | light/dark content runs the status step, then the navigation step with args[0]; a missing argument or a status exception skips only the navigation step |
| QueueProperties.StyleDefaultTouchesOnlyStatus | src/android/StatusBar.java:113-115 | `styleDefault` is the "default" status step and can change only light-status |
| QueueProperties.StartUpWithDefaults | src/android/StatusBar.java:72-82 | with no preference set, start-up clears FORCE_NOT_FULLSCREEN, then applies true, "lightcontent", "lightcontent", "#000000" in that order, stopping at the first exception |
| QueueProperties.OverlayDispatch | src/android/StatusBar.java:103-111 | one `overlaysWebView` command sets the overlay from a boolean argument; a missing or malformed argument leaves the whole window as it was and throws nothing |
| QueueProperties.LastOverlayWins | src/android/StatusBar.java:103-111 | after any run of `overlaysWebView` tasks, nothing is thrown and the visibility is the last well-formed argument's; malformed ones leave the visibility as it was |
| QueueProperties.FullscreenNeverSet | src/android/StatusBar.java:98-99 | no task sets FLAG_FULLSCREEN and none nulls the window, so once `_ready` says visible it keeps saying so |
| QueueProperties.TaskKeepsFullscreenClear | src/android/StatusBar.java:72-82 | one task keeps FLAG_FULLSCREEN clear and the window present |
| QueueProperties.NavigationKeepsFullscreenClear | src/android/StatusBar.java:209-213 | the navigation setter keeps FLAG_FULLSCREEN clear |
| Scenarios.MagentaParses | src/android/StatusBar.java:198 | "#FF00FF" parses to opaque magenta 0xFFFF00FF |
| Scenarios.BlackParses | src/android/StatusBar.java:80 | the default "#000000" parses to opaque black 0xFF000000 |
| Scenarios.NavigationMagentaLight | src/android/StatusBar.java:209-227 | "lightcontent" with "#FF00FF" on API 23 or later sets magenta, the two flags and light-nav true, and nothing else |
| Scenarios.NavigationNotAColor | src/android/StatusBar.java:197-203 | "not-a-color" throws IllegalArgumentException with the window untouched |
| Scenarios.StartUpOnCapableDevice | src/android/StatusBar.java:72-82 | default start-up on API 23 or later gives overlay layout, transparent status bar, light icons on both bars and opaque black navigation, with FORCE_NOT_FULLSCREEN and TRANSLUCENT_NAVIGATION cleared |
| Scenarios.NavigationOnLollipop | src/android/StatusBar.java:237-239 | on API 22 the colour is set and light-nav is left as it was, whatever the style |

## Left out

- The Android framework is represented only by the values the plugin passes to it. What the platform does with the "appearance light" switches is not modelled, nor how they relate to the decor visibility bits.
- Flags are symbolic. Android's numeric constants are not modelled; numerically, `SYSTEM_UI_FLAG_VISIBLE` is the empty bit pattern.
- `Color.parseColor` is the `parseColor` field of `Device`, so every property of the setters holds for any parser. The concrete `Colors.ParseHexColor` is a subset: it leaves out the named colours ("red", "black", …), the sign characters that Android's hexadecimal path also accepts, and the non-ASCII digits and fullwidth letters `Long.parseLong` accepts through `Character.digit`. Every parse failure is labelled `IllegalArgument`. An empty colour is one such failure, for example `styleLightContent("")` or an empty `NavigationBarColor` preference. Android fails on it with `StringIndexOutOfBoundsException` instead, which the catch of `IllegalArgumentException` does not log. It escapes all the same, with the same effect on the window and the queue.
- Argument reads from `CordovaArgs` are reduced to "present with the right kind, or `JSONException`". org.json's coercions are not modelled, such as reading a boolean from the string "true" or reading a string from a non-string value. One consequence: the JavaScript bridge always sends one argument, so `styleLightContent()` or `styleDarkContent()` without a colour arrives as a JSON null. org.json reads that as the text "null" instead of failing, so the colour parse rejects it and the exception escapes. The model's skip path (`QueueProperties.StyleContentOrder`) covers only reads that fail.
- Preference lookup is reduced to "set or unset". How `CordovaPreferences` parses a stored value is not part of this model.
- `Text.Lower`: only ASCII letters are lower-cased. `String.toLowerCase` also maps other letters, depending on the locale.
- Threading: `runOnUiThread` becomes a FIFO queue run by `RunNextTask`. A task posted from the UI thread itself runs at once in Android; that gives the same order here.
- An exception escaping a UI task ends the UI thread and, in Android, the process. The model shows this only as `RunTasks` stopping at that task.
- Logging, `LOG` calls, and the `CallbackContext`/`PluginResult` plumbing. The `_ready` reply is the `statusBarVisible` part of `Plugin.Reply`.
- The catch blocks of `styleLightContent`/`styleDarkContent` log with an undefined variable `e`, so the file does not compile as written. The model takes the evident intent: log, then skip the navigation step.
- `setStatusBarTransparent` fetches the window again from the activity instead of using the cached field. The model treats both as the activity's one window.
- The JavaScript bridge and the type declarations: they are thin wrappers with no logic of their own.

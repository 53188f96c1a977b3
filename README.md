# Desktop window manager, modelled in Dafny

This project models the window manager of a "desktop OS" portfolio web site and proves
properties of it. It covers four parts.

- **The desktop session.** `app/page.tsx` holds three pieces of state: the ordered list of
  window records, the id of the active window and a z-index counter that starts at 10. Its
  handlers open, close, focus, minimize, maximize, move and resize windows, open a project's
  document window, and react to a click on a taskbar item. It also sizes the desktop icon
  grid from the container height.
- **The window frame.** `components/AppWindow.tsx` chooses the renderer for a window
  record. It also computes the size and position a resize gesture asks for, and guards
  gestures: resize handles exist only on a window that is not maximized, and a window drags
  only when it is neither maximized nor being resized.
- **The rock-paper-scissors window.** The win rule, the score, and the three screens of a
  round.
- **The static tables.** The application list, the window open at load, the project
  list, and the HTML document built for each project.

Files:

- `types.dfy` holds the records.
- `js_builtins.dfy` holds the JavaScript built-ins the core relies on: `Array.find`,
  `Array.join`, `split(sep)[0]`, the decimal text of an integer, and `parseInt`.
- `constants.dfy` holds the tables and `getProjectContent`.
- `desktop.dfy` holds the `Desktop` class and the list operations its handlers are built
  from.
- `app_window.dfy` holds the router, the resize arithmetic and the `WindowFrame` class.
- `rock_paper_scissors.dfy` holds the game.

The session is modelled by `Desktop.Desktop`. Its methods update `windows`,
`activeWindowId` and `maxZIndex`. Each method keeps `Valid()`, which says:

- window ids are unique;
- z-indices are distinct and never above the counter;
- every window is open;
- the active window, when there is one, is strictly above every other window.

Each method states the new list as an edit of the old one. `MapWhere(ws, id, e)` is the
`map` that spreads `e` into the window with that id. `Without(ws, id)` is the `filter`.

Every handler reads the list and the counter as they were when the event began. A single
handler therefore behaves like a sequential update. The taskbar click runs two handlers
against the same values, and `Desktop.Desktop.TaskbarClick` states that case on its own:
a minimized window that is not active gets the counter plus one, while the counter goes up
by two.

The session starts with the active id `"welcome"`, which is not the id of the only window
open at load (`"about"`). So no window is active at first.

On the west and north edges the code does not clamp at the minimum. A candidate below it
is dropped and that axis keeps the gesture's start values: the start width and left edge
(or start height and top edge) (components/AppWindow.tsx:106-119).
`AppWindow.ResizeStep` models the code, and `AppWindow.WestDragPastMinimumSnapsBack` shows
the result: a 640-pixel window dragged 500 pixels by its west edge asks for 640 at the
original left edge, not 300.

## Model

| member | source | states |
|---|---|---|
| JsBuiltins.StartsWith | components/AppWindow.tsx:59 | reference definition of `startsWith` (no contract of its own); `AppWindow.WindowContent` routes on it and `Constants.AppIdsAreNotProjectIds` and `AppWindow.PrefixedIdShowsProject` reason about it |
| JsBuiltins.Find | app/page.tsx:57 | `find` gives nothing exactly when no element passes the test; otherwise it gives an element that passes, and no earlier element does |
| JsBuiltins.Join | constants/index.ts:222-224 | reference definition of `join`, also used for the technologies line at constants/index.ts line 237 (no contract of its own); `JoinAppend`, `JoinFirst` and `JoinAround` pin down where the separators go |
| JsBuiltins.JoinAppend | constants/index.ts:222-224 | joining two non-empty lists one after the other gives the two joins with exactly one separator between them |
| JsBuiltins.JoinAround | constants/index.ts:222-224 | a part in the middle of a joined list is preceded by the join of the parts before it and a separator (when there are any) and followed by a separator and the join of the parts after it (when there are any) |
| JsBuiltins.JoinFirst | constants/index.ts:222-224 | the first part of a joined list is followed by a separator exactly when more parts follow |
| JsBuiltins.IndexOf | app/page.tsx:166-167 | the search gives -1 exactly when the pattern occurs nowhere at or after the start index, and otherwise the first such occurrence |
| JsBuiltins.BeforeFirst | app/page.tsx:166-167 | `split(sep)[0]` is a prefix of the name; it is the whole name when the separator never occurs, and otherwise the separator starts right after it and occurs nowhere earlier |
| JsBuiltins.NatToDecimal | app/page.tsx:152 | the decimal text of a number is non-empty and made of digits |
| JsBuiltins.IntToString | app/page.tsx:152 | reference definition of `${n}` for an integer (no contract of its own); `ParseIntOfIntToString` and `ParseIntRoundTrip` show that `parseInt` reads it back |
| JsBuiltins.ParseInt | components/AppWindow.tsx:60 | reference definition of `parseInt` with no radix (no contract of its own); pinned down by `ParseIntRoundTrip`, `ParseIntOfIntToString` and `ParseIntRejects` |
| JsBuiltins.ParseMagnitude | components/AppWindow.tsx:60 | reference definition of the unsigned part of `parseInt` (no contract of its own); `MagnitudeOfDecimal` shows it reads a decimal numeral up to the first non-digit |
| JsBuiltins.TrimStart | components/AppWindow.tsx:60 | `parseInt` skips a prefix of JavaScript white space and keeps the rest of the text unchanged |
| JsBuiltins.ParseIntOfIntToString | components/AppWindow.tsx:59-61 | `parseInt` reads back any integer printed into a template literal, whatever follows unless it continues the numeral |
| JsBuiltins.ParseIntRejects | components/AppWindow.tsx:59-61 | `parseInt` of a text that is empty or starts with neither white space, a sign nor a digit is NaN |
| JsBuiltins.ParseIntRoundTrip | components/AppWindow.tsx:59-61 | `parseInt` of the printed form of an integer is that integer |
| Constants.FindProject | constants/index.ts:164 | reference definition of `PROJECTS.find` by id (no contract of its own); `FindProjectById` states what it finds |
| Constants.FindProjectById | app/page.tsx:149-150 | a project is found exactly for the ids 1 to 6, and it is the table entry with that id |
| Constants.ListItems | constants/index.ts:222-223 | each achievement becomes one `<li>` item, in order |
| Constants.AchievementsHtml | constants/index.ts:222-224 | reference definition of the list items joined by line breaks (no contract of its own); `Constants.AchievementsInOrder` states where each item lands |
| Constants.Heading | constants/index.ts:226 | reference definition of the bold name heading (no contract of its own); `Constants.ProjectHtml` and `Constants.GetProjectContent` promise the document starts with it |
| Constants.AchievementsList | constants/index.ts:232-234 | reference definition of the list items between the list tags (no contract of its own); `Constants.ProjectHtml` promises the document contains it |
| Constants.TechnologiesParagraph | constants/index.ts:237 | reference definition of the tags joined by ", " in a paragraph (no contract of its own); `Constants.ProjectHtml` promises the document ends with it, and the `Join` lemmas say where the separators go |
| Constants.ProjectHtml | constants/index.ts:226-237 | a project document starts with the bold name heading, ends with the technologies paragraph, and contains the achievements list |
| Constants.GetProjectContent | constants/index.ts:163-238 | the document is empty for an id that names no project or has no details entry, and otherwise has the shape above |
| Constants.ListItemsSplit | constants/index.ts:222-223 | the items of a list split at position i into the items before i, the item of achievement i, and the items after it |
| Constants.AchievementsInOrder | constants/index.ts:222-224 | achievement i appears as one whole list item, after the items of the achievements before it and before those after it, with one line break between neighbouring items |
| Constants.AppIdsDistinct | constants/index.ts:11-61 | the application ids are pairwise distinct |
| Constants.ProjectIds | constants/index.ts:89-158 | the project ids are 1 to 6 in table order, so they are pairwise distinct |
| Constants.AppIdsAreNotProjectIds | constants/index.ts:11-61 | no application id starts with the prefix of project window ids |
| Constants.InitialWindowsShape | constants/index.ts:62-75 | the load-time window is the visible "about" notepad at (50, 50), 640 by 480, at z-index 10 |
| Constants.EveryProjectHasContent | constants/index.ts:163-220 | every project id of the table has a non-empty document |
| Desktop.CascadePosition | app/page.tsx:81 | reference definition of where the n-th window opens, a formula that recurs at app/page.tsx line 176 (no contract of its own); `Desktop.Desktop.OpenWindow` and `Desktop.Desktop.HandleProjectClick` place each new window there |
| Desktop.ProjectWindowId | app/page.tsx:152 | reference definition of `project-${projectId}` (no contract of its own); `ProjectWindowIdsDistinct` and `AppWindow.ProjectWindowShowsItsDocument` state what the id determines |
| Desktop.ProjectWindowIdsDistinct | app/page.tsx:152 | the window ids `project-${projectId}` of distinct projects are distinct |
| Desktop.ProjectWindowTitle | app/page.tsx:166-170 | a project window's title ends in ".txt"; the part before it is a prefix of the project name holding no " - ", and it is either the whole name or followed in it by " - " |
| Desktop.HasId | app/page.tsx:57-59 | reference definition of "some window has this id", the test `if (existingWindow)` makes (no contract of its own); `Desktop.FindWindow` is proved to agree with it |
| Desktop.FindWindow | app/page.tsx:57 | `windows.find` by id gives a record exactly when some window has the id, and then the first window with that id |
| Desktop.Apply | app/page.tsx:59-65 | an edit never changes a window's id, title, type, content or open flag, and each field changes only under the edit that names it |
| Desktop.MapWhere | app/page.tsx:133-135 | the window with that id is edited, and every other window stays as it was, in the same order |
| Desktop.Without | app/page.tsx:90-92 | the filter never lengthens the list and keeps no window with the removed id |
| Desktop.WithoutMembers | app/page.tsx:90-92 | a window is kept by the filter if and only if it was in the list and has another id |
| Desktop.FindUnique | app/page.tsx:57 | with unique ids, `find` gives the window at the position holding that id |
| Desktop.RaiseKeepsInvariant | app/page.tsx:123-130 | giving a window the counter plus one puts it on top, makes it the active one and keeps the session invariant under the raised counter |
| Desktop.KeepZKeepsInvariant | app/page.tsx:132-146 | an edit that keeps the target's z-index keeps the session invariant, with the same active id and counter |
| Desktop.MapWhereAbsent | app/page.tsx:94-114 | an edit of an id no window has changes nothing |
| Desktop.ComeBackKeepsInvariant | app/page.tsx:94-114 | un-minimizing a window puts it on top: the session invariant holds with that window active and the counter one higher |
| Desktop.GoAwayKeepsInvariant | app/page.tsx:94-114 | minimizing a visible window keeps its z-index, and the session invariant holds with the same active id and counter |
| Desktop.AppendKeepsInvariant | app/page.tsx:69-87 | appending a window with a fresh id one above the counter keeps the invariant and makes that window active |
| Desktop.WithoutAt | app/page.tsx:90-92 | with unique ids, removing an id removes exactly its one position |
| Desktop.WithoutAbsent | app/page.tsx:90-92 | removing an id no window has changes nothing |
| Desktop.RemoveKeepsInvariant | app/page.tsx:90-92 | closing a window keeps the invariant, even when it was the active one |
| Desktop.DeleteKeepsInvariant | app/page.tsx:90-92 | deleting one position of the list keeps the invariant |
| Desktop.Desktop.constructor | app/page.tsx:18-20 | the session starts with the load-time window, the active id "welcome", which no window has, and the counter at 10 |
| Desktop.Desktop.RestoreOpen | app/page.tsx:59-68 | bringing back an open window un-minimizes it only, at the counter plus one; it becomes active and the counter rises by one |
| Desktop.Desktop.AppendWindow | app/page.tsx:84-86 | a new window goes at the end of the list and becomes active, and the counter rises by one |
| Desktop.Desktop.OpenWindow | app/page.tsx:56-88 | a present id adds no window and is restored; a new id appends one visible, unmaximized window at (50+30n, 50+30n), 640 by 480 (768 wide for "projects"), on top and active; the counter rises by one either way |
| Desktop.Desktop.CloseWindow | app/page.tsx:90-92 | exactly the window with that id leaves, the others keep their order and fields, and the active id and the counter stay |
| Desktop.Desktop.FocusWindow | app/page.tsx:123-130 | nothing changes when the window is already active; otherwise only its z-index changes, to the counter plus one, it becomes active and the counter rises by one; it ends strictly above every other window |
| Desktop.Desktop.ToggleMinimize | app/page.tsx:94-114 | only the target's minimized flag flips; coming back puts it on top, makes it active and raises the counter; going away keeps its z-index, the active id and the counter; an unknown id changes nothing |
| Desktop.Desktop.ToggleMaximize | app/page.tsx:116-121 | only the maximized flag flips, then the focus rule applies; no position or size changes |
| Desktop.Desktop.MoveWindow | app/page.tsx:132-136 | only the target's position changes, to exactly the given one, without clamping |
| Desktop.Desktop.ResizeWindow | app/page.tsx:138-146 | only the target's size changes, and its position when one is given |
| Desktop.Desktop.HandleProjectClick | app/page.tsx:148-184 | an unknown project changes nothing; otherwise the "project-n" window is restored, or created as a notepad titled with the text before " - " plus ".txt", 800 by 600, holding the project document, on top and active |
| Desktop.Desktop.TaskbarClick | app/page.tsx:255-276 | a click on the item of the k-th window: the active visible window is minimized; any other window ends visible, active and at the counter plus one as the click saw it, while the counter rises once for the focus and once more if it was minimized |
| Desktop.Desktop.RestoreFromTaskbar | app/page.tsx:272-275 | the focus handler followed by the minimize toggle of the same click brings a minimized window back at the counter plus one as the click saw it, makes it active, and raises the counter by two, or by one when it was already active |
| Desktop.RaiseIsRestoreWhenVisible | app/page.tsx:272-274 | for a window that is not minimized, focusing it edits it as bringing it back does |
| Desktop.TaskbarRestoreEdits | app/page.tsx:272-275 | the focus step and the un-minimize step of one click together edit a minimized window as one restore at the counter the click saw |
| Desktop.TaskbarRestoreKeepsInvariant | app/page.tsx:272-275 | after that click the window is on top and active, and the session invariant holds under any counter at least one above the old one |
| Desktop.MaxRows | app/page.tsx:33-49 | the icon grid gets at least one row; beyond one, that many rows fit below the padding, and one more would not |
| AppWindow.WindowContent | components/AppWindow.tsx:49-73 | each of the types terminal, explorer, mail, game and chat gets its own view, and only that type does; the fallback is shown exactly for the unrouted types; notepad shows the credits for the id "credits", a project document for ids with the project prefix, and the welcome text otherwise |
| AppWindow.PrefixedIdShowsProject | components/AppWindow.tsx:57-62 | a notepad window whose id has the project prefix shows the document named by the rest of the id |
| AppWindow.ProjectText | components/AppWindow.tsx:59-61 | reference definition of the project document for the text after the prefix (no contract of its own); `ProjectWindowShowsItsDocument` and `UnparsableProjectIdShowsNothing` state what it shows |
| AppWindow.ProjectWindowShowsItsDocument | components/AppWindow.tsx:59-62 | a project window created by the project click routes to the document of that very project |
| AppWindow.EveryAppIsRouted | components/AppWindow.tsx:49-73 | every desktop application has a renderer, and each gets the view of its own type: welcome text for "about", explorer, terminal, mail, game, credits for "credits", and chat |
| AppWindow.UnparsableProjectIdShowsNothing | components/AppWindow.tsx:59-61 | a project-prefixed id with no number after the prefix shows an empty document |
| AppWindow.Max | components/AppWindow.tsx:101-104 | `Math.max` gives the larger of its two arguments: at least each, and equal to one of them |
| AppWindow.ResizeStep | components/AppWindow.tsx:91-126 | an unnamed axis keeps its start values; east and south stop at 300 and 200 with the opposite edge fixed; west and north move only when the result is at least the minimum and otherwise fall back to the start values, so the opposite edge stays fixed in every case; a window at least the minimum size stays so |
| AppWindow.HandlesKeepOppositeEdges | components/AppWindow.tsx:198-240 | on each of the eight handles the edge opposite the dragged one stays fixed, and the minimum size is kept |
| AppWindow.WestDragPastMinimumSnapsBack | components/AppWindow.tsx:106-112 | dragging the west edge of a 640-wide window 500 pixels right asks for the start geometry |
| AppWindow.ZeroOffsetKeepsGeometry | components/AppWindow.tsx:95-98 | a move back to the press point asks for the start geometry on every handle |
| AppWindow.Handles | components/AppWindow.tsx:198-240 | a window carries the eight handles when it is not maximized and none when it is |
| AppWindow.WindowFrame.constructor | components/AppWindow.tsx:47 | a frame starts with no resize under way |
| AppWindow.WindowFrame.PressHandle | components/AppWindow.tsx:75-89 | a resize starts exactly when the handle exists, capturing the cursor and the window's size and position; otherwise nothing changes |
| AppWindow.WindowFrame.MovePointer | components/AppWindow.tsx:91-126 | during a resize, a move asks for the geometry computed from the start of the gesture and the cursor's offset from the press point, not from earlier moves; outside one it asks for nothing |
| AppWindow.WindowFrame.ReleasePointer | components/AppWindow.tsx:128-133 | releasing the mouse button ends the resize |
| AppWindow.WindowFrame.PressTitleBar | components/AppWindow.tsx:252-254 | the window follows the cursor exactly when it is not maximized and no resize is under way |
| AppWindow.ResizeDuringGesture | components/AppWindow.tsx:121-125 | a move during a resize resizes exactly the gesture's window to the computed geometry, leaves the active window and the z-index counter alone, and keeps the session invariant; outside a gesture the windows stay as they were |
| RockPaperScissors.Beats | components/windows/RockPaperScissors.tsx:38-42 | reference definition of the three winning pairs (no contract of its own); `Decide` and `DecideByCycle` state the rule through it |
| RockPaperScissors.Decide | components/windows/RockPaperScissors.tsx:35-48 | a draw exactly on equal choices, a player win exactly on the three winning pairs, a computer win exactly when the computer's choice beats the player's |
| RockPaperScissors.DecideSwaps | components/windows/RockPaperScissors.tsx:38-47 | exchanging the two choices exchanges win and loss |
| RockPaperScissors.DecideByCycle | components/windows/RockPaperScissors.tsx:38-47 | the rule agrees with "each choice beats the one before it on the cycle rock, paper, scissors" |
| RockPaperScissors.Message | components/windows/RockPaperScissors.tsx:36-47 | reference definition of the result banner of each outcome (no contract of its own); `Game.Valid` and `Game.DetermineWinner` tie the banner shown to the outcome of the two choices |
| RockPaperScissors.Tally | components/windows/RockPaperScissors.tsx:43-46 | neither count goes down; only the winner's count rises, by one, and a draw leaves both |
| RockPaperScissors.TallyAllCounts | components/windows/RockPaperScissors.tsx:43-46 | over any series of rounds neither count goes down, and their sum grows by the number of rounds that were not draws |
| RockPaperScissors.Game.constructor | components/windows/RockPaperScissors.tsx:17-21 | the game starts on the choosing screen at 0 to 0 |
| RockPaperScissors.Game.HandleChoice | components/windows/RockPaperScissors.tsx:23-26 | choosing records the player's choice, shows the playing screen and schedules the computer's turn; the score stays |
| RockPaperScissors.Game.TimerFires | components/windows/RockPaperScissors.tsx:28-32 | the computer's pick is recorded and the round is decided against the captured choice: result screen, banner and score as the rule says |
| RockPaperScissors.Game.DetermineWinner | components/windows/RockPaperScissors.tsx:35-50 | the banner and the score follow the outcome, and the result screen shows |
| RockPaperScissors.Game.ResetGame | components/windows/RockPaperScissors.tsx:52-57 | back to choosing, with both choices and the banner cleared and the score kept |
| RockPaperScissors.PlayRound | components/windows/RockPaperScissors.tsx:23-57 | a full round returns to the choosing screen with the score moved as the rule says |

## Left out

- Rendering, animation and styling are left out: the JSX, the motion properties, the icons and every presentational component. The `icon` field of `AppData` is dropped.
- DOM and event plumbing are left out: pointer capture, listener registration, propagation, and the window-level press that focuses a window (components/AppWindow.tsx:196). A title-bar drag ends in `onDragEnd`, which reads the element's rectangle from the DOM. It is modelled only by the `moveWindow` call it makes (`Desktop.Desktop.MoveWindow`).
- Touches are not modelled. The frame keeps one resize gesture; a second press during a resize registers a second set of listeners in the source, and the model replaces the first gesture.
- The clock and the container height are not modelled. `setInterval`/`Date` only drive the taskbar clock, and `clientHeight` is a DOM measurement. `Desktop.MaxRows` takes the height as a parameter. The `resize` listener that reruns it is left out.
- The rock-paper-scissors timeout and `Math.random` are not modelled. The pending timeout is a queue of captured choices, and the computer's pick is a parameter of `TimerFires`.
- RockPaperScissors.Game.HandleChoice and RockPaperScissors.Game.ResetGame require the screen their button appears on (components/windows/RockPaperScissors.tsx:80-93, 145-157). A call from any other screen is not modelled.
- Numbers are integers. Pointer coordinates and sizes are JavaScript numbers, which may be fractional; `640 * 1.2` is exactly 768 and is modelled as `640 * 6 / 5`. `parseInt` of a numeral too long for a double is read exactly rather than rounded; such an id matches no project either way. `${n}` is modelled by the plain decimal numeral, which JavaScript prints only for magnitudes below 10^21 (larger ones switch to exponent form); the source prints only the project ids 1 to 6.
- JsBuiltins.BeforeFirst requires a non-empty separator; the only separator the source splits on is `" - "`.
- The taskbar's fallback application record for a window that is not in `APPS` only feeds the rendered item, so it is left out.
- `SKILLS` and `CODENAME` in constants/index.ts are not read by the core and are left out.
- The e-mail action, the music tray control, the rich text editor, the explorer's fuzzy search, and the page metadata and layout are not part of this model.

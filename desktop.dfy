/** The desktop session of the portfolio page: the ordered list of open windows, the
    id of the active window and the running z-index counter, and the event handlers
    that change them (open, close, focus, minimize, maximize, move, resize, open a
    project, click a taskbar item). */
module Desktop {

  import opened Types
  import opened JsBuiltins
  import opened Constants

  const BASE_WIDTH: int := 640
  /** `640 * 1.2` in double arithmetic rounds to exactly 768. */
  const PROJECTS_WIDTH: int := BASE_WIDTH * 6 / 5
  const BASE_HEIGHT: int := 480
  const PROJECT_WINDOW_SIZE: Size := Size(800, 600)
  const PROJECT_ID_PREFIX: string := "project-"
  const INITIAL_ACTIVE_ID: string := "welcome"
  const INITIAL_MAX_Z: int := 10

  /** Where the `n`-th window opens: 30 pixels further right and down per window already open. */
  function CascadePosition(n: nat): Position {
    Position(50 + n * 30, 50 + n * 30)
  }

  /** The id a project window gets: `project-${projectId}`. */
  function ProjectWindowId(projectId: int): string {
    PROJECT_ID_PREFIX + IntToString(projectId)
  }

  /** Distinct projects open windows with distinct ids. */
  lemma ProjectWindowIdsDistinct(a: int, b: int)
    ensures ProjectWindowId(a) == ProjectWindowId(b) ==> a == b
  {
    if ProjectWindowId(a) == ProjectWindowId(b) {
      assert IntToString(a) == ProjectWindowId(a)[|PROJECT_ID_PREFIX|..];
      assert IntToString(b) == ProjectWindowId(b)[|PROJECT_ID_PREFIX|..];
      ParseIntRoundTrip(a);
      ParseIntRoundTrip(b);
    }
  }

  /** The title of a project window: the project name up to the first " - ", plus ".txt".
      The part before ".txt" is a prefix of the name holding no separator, and it is
      either the whole name or followed in the name by the separator. */
  function ProjectWindowTitle(name: string): (r: string)
    ensures EndsWith(r, ".txt")
    ensures StartsWith(name, r[..|r| - 4])
    ensures forall k :: 0 <= k < |r| - 4 ==> !OccursAt(name, " - ", k)
    ensures r[..|r| - 4] == name || OccursAt(name, " - ", |r| - 4)
  {
    var company := BeforeFirst(name, " - ");
    var r := company + ".txt";
    assert r[..|r| - 4] == company;
    r
  }

  // ---------------------------------------------------------------------------
  // The window list and the edits the handlers make to one of its records

  /** Some window in the list has the id `id`: the test `windows.find(...)` makes. */
  predicate HasId(ws: seq<WindowData>, id: string) {
    exists i :: 0 <= i < |ws| && ws[i].id == id
  }

  /** `ws.find(w => w.id === id)`: a record is found exactly when some window has the
      id, and it is the first window with that id. */
  function FindWindow(ws: seq<WindowData>, id: string): (r: Option<WindowData>)
    ensures r.Some? <==> HasId(ws, id)
    ensures r.Some? ==> exists k :: 0 <= k < |ws| && ws[k] == r.value && r.value.id == id &&
                                    forall j :: 0 <= j < k ==> ws[j].id != id
  {
    Find(ws, (w: WindowData) => w.id == id)
  }

  /** The change a handler spreads into the record of its target window. */
  datatype Edit =
    | Restore(z: int)                          // { ...w, isMinimized: false, zIndex: z }
    | Raise(z: int)                            // { ...w, zIndex: z }
    | ToggleMinimized(z: int)                  // flip isMinimized; zIndex z when it becomes visible
    | ToggleMaximized                          // flip isMaximized
    | MoveTo(to: Position)                     // { ...w, position: to }
    | ResizeTo(size: Size, at: Option<Position>)  // { ...w, size, position: at || w.position }

  /** The record `w` after the edit `e`. No edit touches the identity of a window
      (id, title, type, content) nor its open flag. */
  function Apply(e: Edit, w: WindowData): (r: WindowData)
    ensures r.id == w.id && r.title == w.title && r.kind == w.kind
    ensures r.content == w.content && r.isOpen == w.isOpen
    ensures r.zIndex != w.zIndex ==> e.Restore? || e.Raise? || (e.ToggleMinimized? && w.isMinimized)
    ensures r.isMinimized != w.isMinimized ==> e.Restore? || e.ToggleMinimized?
    ensures r.isMaximized != w.isMaximized ==> e.ToggleMaximized?
    ensures r.position != w.position || r.size != w.size ==> e.MoveTo? || e.ResizeTo?
  {
    match e
    case Restore(z) => w.(isMinimized := false, zIndex := z)
    case Raise(z) => w.(zIndex := z)
    case ToggleMinimized(z) =>
      w.(isMinimized := !w.isMinimized, zIndex := if w.isMinimized then z else w.zIndex)
    case ToggleMaximized => w.(isMaximized := !w.isMaximized)
    case MoveTo(p) => w.(position := p)
    case ResizeTo(s, p) => w.(size := s, position := if p.Some? then p.value else w.position)
  }

  /** `ws.map(w => w.id === id ? edited(w) : w)`: the records with that id edited,
      every other record as it was, in the same order. */
  function MapWhere(ws: seq<WindowData>, id: string, e: Edit): (r: seq<WindowData>)
    ensures |r| == |ws|
    ensures forall i :: 0 <= i < |ws| ==> r[i] == (if ws[i].id == id then Apply(e, ws[i]) else ws[i])
  {
    seq(|ws|, i requires 0 <= i < |ws| => if ws[i].id == id then Apply(e, ws[i]) else ws[i])
  }

  /** `ws.filter(w => w.id !== id)`. */
  function Without(ws: seq<WindowData>, id: string): (r: seq<WindowData>)
    ensures |r| <= |ws|
    ensures forall i :: 0 <= i < |r| ==> r[i].id != id
  {
    if |ws| == 0 then [] else (if ws[0].id == id then [] else [ws[0]]) + Without(ws[1..], id)
  }

  /** The filter keeps exactly the records with another id. */
  lemma {:induction false} WithoutMembers(ws: seq<WindowData>, id: string, w: WindowData)
    ensures w in Without(ws, id) <==> w in ws && w.id != id
  {
    if |ws| > 0 {
      WithoutMembers(ws[1..], id, w);
      assert ws == [ws[0]] + ws[1..];
    }
  }

  // ---------------------------------------------------------------------------
  // The invariant of the session

  ghost predicate UniqueIds(ws: seq<WindowData>) {
    forall i, j :: 0 <= i < |ws| && 0 <= j < |ws| && i != j ==> ws[i].id != ws[j].id
  }

  /** No two windows share a z-index: the counter hands out each value at most once. */
  ghost predicate DistinctZ(ws: seq<WindowData>) {
    forall i, j :: 0 <= i < |ws| && 0 <= j < |ws| && i != j ==> ws[i].zIndex != ws[j].zIndex
  }

  ghost predicate ZAtMost(ws: seq<WindowData>, m: int) {
    forall i :: 0 <= i < |ws| ==> ws[i].zIndex <= m
  }

  /** The window with id `a`, if open, is drawn above every other window. */
  ghost predicate OnTop(ws: seq<WindowData>, a: string) {
    forall i, j :: 0 <= i < |ws| && 0 <= j < |ws| && ws[i].id == a && i != j ==> ws[j].zIndex < ws[i].zIndex
  }

  ghost predicate AllOpen(ws: seq<WindowData>) {
    forall i :: 0 <= i < |ws| ==> ws[i].isOpen
  }

  ghost predicate SessionInvariant(ws: seq<WindowData>, active: string, m: int) {
    UniqueIds(ws) && DistinctZ(ws) && ZAtMost(ws, m) && OnTop(ws, active) && AllOpen(ws)
  }

  /** With unique ids, `find` returns the one record that has the id. */
  lemma FindUnique(ws: seq<WindowData>, id: string, k: nat)
    requires UniqueIds(ws) && k < |ws| && ws[k].id == id
    ensures FindWindow(ws, id) == Some(ws[k])
  {
    var r := FindWindow(ws, id);
    assert !(forall i :: 0 <= i < |ws| ==> ws[i].id != id);
  }

  /** An edit that sets the target's z-index to one above every z-index in use puts the
      target on top and keeps the invariant, whatever window was active before. */
  lemma RaiseKeepsInvariant(ws: seq<WindowData>, id: string, e: Edit, active: string, m: int)
    requires SessionInvariant(ws, active, m)
    requires forall i :: 0 <= i < |ws| && ws[i].id == id ==> Apply(e, ws[i]).zIndex == m + 1
    ensures SessionInvariant(MapWhere(ws, id, e), id, m + 1)
  {
    var r := MapWhere(ws, id, e);
    forall i, j | 0 <= i < |r| && 0 <= j < |r| && i != j
      ensures r[i].id != r[j].id && r[i].zIndex != r[j].zIndex
      ensures r[i].id == id ==> r[j].zIndex < r[i].zIndex
    {
      if ws[i].id == id {
        assert ws[j].id != id;
      }
    }
  }

  /** An edit that leaves the target's z-index alone keeps the invariant. */
  lemma KeepZKeepsInvariant(ws: seq<WindowData>, id: string, e: Edit, active: string, m: int)
    requires SessionInvariant(ws, active, m)
    requires forall i :: 0 <= i < |ws| && ws[i].id == id ==> Apply(e, ws[i]).zIndex == ws[i].zIndex
    ensures SessionInvariant(MapWhere(ws, id, e), active, m)
  {
  }

  /** Editing an id no window has changes nothing. */
  lemma MapWhereAbsent(ws: seq<WindowData>, id: string, e: Edit)
    requires !HasId(ws, id)
    ensures MapWhere(ws, id, e) == ws
  {
  }

  /** Flipping the minimized flag of a minimized window brings it back on top: the
      invariant holds with that window active and the counter one higher. */
  lemma ComeBackKeepsInvariant(ws: seq<WindowData>, id: string, active: string, m: int)
    requires SessionInvariant(ws, active, m)
    requires FindWindow(ws, id).Some? && FindWindow(ws, id).value.isMinimized
    ensures SessionInvariant(MapWhere(ws, id, ToggleMinimized(m + 1)), id, m + 1)
  {
    forall i | 0 <= i < |ws| && ws[i].id == id ensures ws[i].isMinimized {
      FindUnique(ws, id, i);
    }
    RaiseKeepsInvariant(ws, id, ToggleMinimized(m + 1), active, m);
  }

  /** Flipping the minimized flag of a visible window (or of an id no window has)
      keeps its z-index, and the invariant holds with the same active id and counter. */
  lemma GoAwayKeepsInvariant(ws: seq<WindowData>, id: string, active: string, m: int)
    requires SessionInvariant(ws, active, m)
    requires !(FindWindow(ws, id).Some? && FindWindow(ws, id).value.isMinimized)
    ensures SessionInvariant(MapWhere(ws, id, ToggleMinimized(m + 1)), active, m)
  {
    forall i | 0 <= i < |ws| && ws[i].id == id ensures !ws[i].isMinimized {
      FindUnique(ws, id, i);
    }
    KeepZKeepsInvariant(ws, id, ToggleMinimized(m + 1), active, m);
  }

  /** Appending a window with a fresh id one above every z-index in use keeps the
      invariant and puts the new window on top. */
  lemma AppendKeepsInvariant(ws: seq<WindowData>, w: WindowData, active: string, m: int)
    requires SessionInvariant(ws, active, m)
    requires !HasId(ws, w.id) && w.zIndex == m + 1 && w.isOpen
    ensures SessionInvariant(ws + [w], w.id, m + 1)
  {
    var r := ws + [w];
    forall i, j | 0 <= i < |r| && 0 <= j < |r| && i != j
      ensures r[i].id != r[j].id && r[i].zIndex != r[j].zIndex
      ensures r[i].id == w.id ==> r[j].zIndex < r[i].zIndex
    {
      if i == |ws| {
        assert r[j] == ws[j];
      } else if j == |ws| {
        assert r[i] == ws[i];
      }
    }
  }

  /** The tail of a list with unique ids has unique ids. */
  lemma UniqueTail(ws: seq<WindowData>)
    requires UniqueIds(ws) && |ws| > 0
    ensures UniqueIds(ws[1..])
    ensures forall i :: 0 <= i < |ws[1..]| ==> ws[1..][i].id != ws[0].id
  {
    var rest := ws[1..];
    forall i, j | 0 <= i < |rest| && 0 <= j < |rest| && i != j
      ensures rest[i].id != rest[j].id
    {
      assert rest[i] == ws[i + 1] && rest[j] == ws[j + 1];
    }
    forall i | 0 <= i < |rest| ensures rest[i].id != ws[0].id {
      assert rest[i] == ws[i + 1];
    }
  }

  /** Filtering out one id keeps the records that stay, in their order: when the id
      is at index `k` the result is the list without that index. */
  lemma {:induction false} WithoutAt(ws: seq<WindowData>, id: string, k: nat)
    requires UniqueIds(ws) && k < |ws| && ws[k].id == id
    ensures Without(ws, id) == ws[..k] + ws[k + 1..]
  {
    var rest := ws[1..];
    UniqueTail(ws);
    if k == 0 {
      assert Without(rest, id) == rest by {
        WithoutAbsent(rest, id);
      }
      assert Without(ws, id) == [] + Without(rest, id);
      assert ws[..0] + ws[1..] == rest;
    } else {
      assert Without(rest, id) == rest[..k - 1] + rest[k..] by {
        WithoutAt(rest, id, k - 1);
      }
      assert Without(ws, id) == [ws[0]] + Without(rest, id) by {
        assert ws[0].id != id;
      }
      assert rest[..k - 1] + rest[k..] == ws[1..k] + ws[k + 1..];
      assert [ws[0]] + (ws[1..k] + ws[k + 1..]) == ws[..k] + ws[k + 1..];
    }
  }

  /** Filtering out an id no window has changes nothing. */
  lemma {:induction false} WithoutAbsent(ws: seq<WindowData>, id: string)
    requires !HasId(ws, id)
    ensures Without(ws, id) == ws
  {
    if |ws| > 0 {
      assert !HasId(ws[1..], id) by {
        forall i | 0 <= i < |ws[1..]| ensures ws[1..][i].id != id {
          assert ws[1..][i] == ws[i + 1];
        }
      }
      WithoutAbsent(ws[1..], id);
      assert [ws[0]] + ws[1..] == ws;
    }
  }

  /** Closing any window keeps the invariant, for the same active id. */
  lemma RemoveKeepsInvariant(ws: seq<WindowData>, id: string, active: string, m: int)
    requires SessionInvariant(ws, active, m)
    ensures SessionInvariant(Without(ws, id), active, m)
  {
    if HasId(ws, id) {
      var k :| 0 <= k < |ws| && ws[k].id == id;
      WithoutAt(ws, id, k);
      DeleteKeepsInvariant(ws, k, active, m);
    } else {
      WithoutAbsent(ws, id);
    }
  }

  lemma DeleteKeepsInvariant(ws: seq<WindowData>, k: nat, active: string, m: int)
    requires SessionInvariant(ws, active, m) && k < |ws|
    ensures SessionInvariant(ws[..k] + ws[k + 1..], active, m)
  {
    var r := ws[..k] + ws[k + 1..];
    assert forall i :: 0 <= i < |r| ==> r[i] == ws[if i < k then i else i + 1];
    forall i, j | 0 <= i < |r| && 0 <= j < |r| && i != j
      ensures r[i].id != r[j].id && r[i].zIndex != r[j].zIndex
      ensures r[i].id == active ==> r[j].zIndex < r[i].zIndex
    {
      var i' := if i < k then i else i + 1;
      var j' := if j < k then j else j + 1;
      assert r[i] == ws[i'] && r[j] == ws[j'] && i' != j';
    }
  }

  // ---------------------------------------------------------------------------
  // The session

  class Desktop {
    var windows: seq<WindowData>
    var activeWindowId: string
    var maxZIndex: int

    ghost predicate Valid()
      reads this
    {
      SessionInvariant(windows, activeWindowId, maxZIndex)
    }

    /** The page at load: the initial window, an active id that names no window, and
        the counter at 10, the z-index of the initial window. */
    constructor ()
      ensures Valid()
      ensures windows == INITIAL_WINDOWS && activeWindowId == INITIAL_ACTIVE_ID
      ensures maxZIndex == INITIAL_MAX_Z
      ensures !HasId(windows, activeWindowId)
    {
      windows := INITIAL_WINDOWS;
      activeWindowId := INITIAL_ACTIVE_ID;
      maxZIndex := INITIAL_MAX_Z;
      InitialWindowsShape();
    }

    /** Brings back an open window: visible, one above the counter, active. */
    method RestoreOpen(id: string)
      requires Valid() && HasId(windows, id)
      modifies this
      ensures Valid()
      ensures windows == MapWhere(old(windows), id, Restore(old(maxZIndex) + 1))
      ensures activeWindowId == id && maxZIndex == old(maxZIndex) + 1
    {
      RaiseKeepsInvariant(windows, id, Restore(maxZIndex + 1), activeWindowId, maxZIndex);
      windows := MapWhere(windows, id, Restore(maxZIndex + 1));
      activeWindowId := id;
      maxZIndex := maxZIndex + 1;
    }

    /** Appends a new window with a fresh id and makes it active; its z-index must be
        one above the counter, which then moves up to it. */
    method AppendWindow(w: WindowData)
      requires Valid() && !HasId(windows, w.id)
      requires w.zIndex == maxZIndex + 1 && w.isOpen
      modifies this
      ensures Valid()
      ensures windows == old(windows) + [w]
      ensures activeWindowId == w.id && maxZIndex == old(maxZIndex) + 1
    {
      AppendKeepsInvariant(windows, w, activeWindowId, maxZIndex);
      windows := windows + [w];
      activeWindowId := w.id;
      maxZIndex := maxZIndex + 1;
    }

    /** `openWindow`: bring back the window of the application if it is open,
        otherwise open one at the next cascade position. */
    method OpenWindow(app: AppData)
      requires Valid()
      modifies this
      ensures Valid()
      ensures activeWindowId == app.id && maxZIndex == old(maxZIndex) + 1
      ensures HasId(old(windows), app.id) ==>
                windows == MapWhere(old(windows), app.id, Restore(old(maxZIndex) + 1))
      ensures !HasId(old(windows), app.id) ==>
                windows == old(windows) + [WindowData(
                  app.id, app.title, app.kind, true, false, false, old(maxZIndex) + 1,
                  CascadePosition(|old(windows)|),
                  Size(if app.id == "projects" then PROJECTS_WIDTH else BASE_WIDTH, BASE_HEIGHT),
                  None)]
    {
      var existing := FindWindow(windows, app.id);
      if existing.Some? {
        RestoreOpen(app.id);
      } else {
        var width := if app.id == "projects" then PROJECTS_WIDTH else BASE_WIDTH;
        var w := WindowData(app.id, app.title, app.kind, true, false, false, maxZIndex + 1,
                            CascadePosition(|windows|), Size(width, BASE_HEIGHT), None);
        AppendWindow(w);
      }
    }

    /** `closeWindow`: drops the window; the active id and the counter stay as they
        are, even when the closed window was the active one. */
    method CloseWindow(id: string)
      requires Valid()
      modifies this
      ensures Valid()
      ensures windows == Without(old(windows), id)
      ensures activeWindowId == old(activeWindowId) && maxZIndex == old(maxZIndex)
      ensures forall k :: 0 <= k < |old(windows)| && old(windows)[k].id == id ==>
                windows == old(windows)[..k] + old(windows)[k + 1..]
      ensures !HasId(old(windows), id) ==> windows == old(windows)
    {
      RemoveKeepsInvariant(windows, id, activeWindowId, maxZIndex);
      forall k | 0 <= k < |windows| && windows[k].id == id
        ensures Without(windows, id) == windows[..k] + windows[k + 1..]
      {
        WithoutAt(windows, id, k);
      }
      if !HasId(windows, id) {
        WithoutAbsent(windows, id);
      }
      windows := Without(windows, id);
    }

    /** `focusWindow`: nothing when the window is already active; otherwise it becomes
        active and is raised one above the counter, which moves up. */
    method FocusWindow(id: string)
      requires Valid()
      modifies this
      ensures Valid()
      ensures old(activeWindowId) == id ==>
                windows == old(windows) && activeWindowId == id && maxZIndex == old(maxZIndex)
      ensures old(activeWindowId) != id ==>
                windows == MapWhere(old(windows), id, Raise(old(maxZIndex) + 1)) &&
                activeWindowId == id && maxZIndex == old(maxZIndex) + 1
      ensures OnTop(windows, id)
    {
      if activeWindowId == id {
        return;
      }
      var m := maxZIndex;
      RaiseKeepsInvariant(windows, id, Raise(m + 1), activeWindowId, m);
      activeWindowId := id;
      maxZIndex := maxZIndex + 1;
      windows := MapWhere(windows, id, Raise(m + 1));
    }

    /** `toggleMinimize`: flips the minimized flag of the window. Coming back makes it
        active, one above the counter, which moves up; going away changes nothing else.
        An id no window has changes nothing. */
    method ToggleMinimize(id: string)
      requires Valid()
      modifies this
      ensures Valid()
      ensures windows == MapWhere(old(windows), id, ToggleMinimized(old(maxZIndex) + 1))
      ensures var seen := FindWindow(old(windows), id);
              if seen.Some? && seen.value.isMinimized
              then activeWindowId == id && maxZIndex == old(maxZIndex) + 1
              else activeWindowId == old(activeWindowId) && maxZIndex == old(maxZIndex)
      ensures !HasId(old(windows), id) ==> windows == old(windows)
    {
      var m := maxZIndex;
      var seen := FindWindow(windows, id);
      if !HasId(windows, id) {
        MapWhereAbsent(windows, id, ToggleMinimized(m + 1));
      }
      if seen.Some? && seen.value.isMinimized {
        ComeBackKeepsInvariant(windows, id, activeWindowId, m);
        windows := MapWhere(windows, id, ToggleMinimized(m + 1));
        activeWindowId := id;
        maxZIndex := m + 1;
      } else {
        GoAwayKeepsInvariant(windows, id, activeWindowId, m);
        windows := MapWhere(windows, id, ToggleMinimized(m + 1));
      }
    }

    /** `toggleMaximize`: flips the maximized flag of the window, leaving its stored
        position and size alone, then applies the focus rule to it. */
    method ToggleMaximize(id: string)
      requires Valid()
      modifies this
      ensures Valid()
      ensures old(activeWindowId) == id ==>
                windows == MapWhere(old(windows), id, ToggleMaximized) &&
                activeWindowId == id && maxZIndex == old(maxZIndex)
      ensures old(activeWindowId) != id ==>
                windows == MapWhere(MapWhere(old(windows), id, ToggleMaximized), id, Raise(old(maxZIndex) + 1)) &&
                activeWindowId == id && maxZIndex == old(maxZIndex) + 1
      ensures forall i :: 0 <= i < |windows| ==>
                windows[i].position == old(windows)[i].position && windows[i].size == old(windows)[i].size
    {
      KeepZKeepsInvariant(windows, id, ToggleMaximized, activeWindowId, maxZIndex);
      windows := MapWhere(windows, id, ToggleMaximized);
      FocusWindow(id);
    }

    /** `moveWindow`: the window's position becomes `to`, unclamped; nothing else changes. */
    method MoveWindow(id: string, to: Position)
      requires Valid()
      modifies this
      ensures Valid()
      ensures windows == MapWhere(old(windows), id, MoveTo(to))
      ensures activeWindowId == old(activeWindowId) && maxZIndex == old(maxZIndex)
    {
      KeepZKeepsInvariant(windows, id, MoveTo(to), activeWindowId, maxZIndex);
      windows := MapWhere(windows, id, MoveTo(to));
    }

    /** `resizeWindow`: the window's size becomes `size`, and its position `at` when one
        is given; nothing is clamped and nothing else changes. */
    method ResizeWindow(id: string, size: Size, at: Option<Position>)
      requires Valid()
      modifies this
      ensures Valid()
      ensures windows == MapWhere(old(windows), id, ResizeTo(size, at))
      ensures activeWindowId == old(activeWindowId) && maxZIndex == old(maxZIndex)
    {
      KeepZKeepsInvariant(windows, id, ResizeTo(size, at), activeWindowId, maxZIndex);
      windows := MapWhere(windows, id, ResizeTo(size, at));
    }

    /** `handleProjectClick`: nothing for an id that names no project; otherwise bring
        back the project's window if it is open, or open a notepad window for it with
        the project's document, 800 by 600 at the next cascade position. */
    method HandleProjectClick(projectId: int)
      requires Valid()
      modifies this
      ensures Valid()
      ensures FindProject(projectId).None? ==>
                windows == old(windows) && activeWindowId == old(activeWindowId) &&
                maxZIndex == old(maxZIndex)
      ensures FindProject(projectId).Some? ==>
                var wid := ProjectWindowId(projectId);
                activeWindowId == wid && maxZIndex == old(maxZIndex) + 1 &&
                (HasId(old(windows), wid) ==>
                   windows == MapWhere(old(windows), wid, Restore(old(maxZIndex) + 1))) &&
                (!HasId(old(windows), wid) ==>
                   windows == old(windows) + [WindowData(
                     wid, ProjectWindowTitle(FindProject(projectId).value.name), "notepad",
                     true, false, false, old(maxZIndex) + 1, CascadePosition(|old(windows)|),
                     PROJECT_WINDOW_SIZE, Some(GetProjectContent(projectId)))])
    {
      var project := FindProject(projectId);
      if project.None? {
        return;
      }
      var windowId := ProjectWindowId(projectId);
      var existing := FindWindow(windows, windowId);
      if existing.Some? {
        RestoreOpen(windowId);
      } else {
        var w := WindowData(windowId, ProjectWindowTitle(project.value.name), "notepad",
                            true, false, false, maxZIndex + 1, CascadePosition(|windows|),
                            PROJECT_WINDOW_SIZE, Some(GetProjectContent(projectId)));
        AppendWindow(w);
      }
    }

    /** A click on the taskbar item of the `k`-th window (the taskbar lists the windows
        in order, each item holding its record). The active, visible window is
        minimized. Any other window is focused and, if minimized, brought back; both
        handlers run in the same event against the same session values, so both give
        the window the z-index one above the counter as it was before the click, while
        each of them moves the counter up by one. */
    method TaskbarClick(k: nat)
      requires Valid() && k < |windows|
      modifies this
      ensures Valid()
      ensures var w := old(windows)[k];
              if old(activeWindowId) == w.id && !w.isMinimized then
                windows == MapWhere(old(windows), w.id, ToggleMinimized(old(maxZIndex) + 1)) &&
                activeWindowId == old(activeWindowId) && maxZIndex == old(maxZIndex)
              else
                windows == MapWhere(old(windows), w.id, Restore(old(maxZIndex) + 1)) &&
                activeWindowId == w.id &&
                maxZIndex == old(maxZIndex) + (if old(activeWindowId) != w.id then 1 else 0)
                                            + (if w.isMinimized then 1 else 0)
    {
      var window := windows[k];
      if activeWindowId == window.id && !window.isMinimized {
        FindUnique(windows, window.id, k);
        ToggleMinimize(window.id);
      } else if !window.isMinimized {
        RaiseIsRestoreWhenVisible(windows, window.id, k, maxZIndex + 1);
        FocusWindow(window.id);
      } else {
        RestoreFromTaskbar(window.id, k);
      }
    }

    /** The taskbar click on a minimized window: the focus handler, then the
        minimize toggle, both against the values the click saw. */
    method RestoreFromTaskbar(id: string, ghost k: nat)
      requires Valid() && k < |windows| && windows[k].id == id && windows[k].isMinimized
      modifies this
      ensures Valid()
      ensures windows == MapWhere(old(windows), id, Restore(old(maxZIndex) + 1))
      ensures activeWindowId == id
      ensures maxZIndex == old(maxZIndex) + (if old(activeWindowId) != id then 1 else 0) + 1
    {
      var m := maxZIndex;
      ghost var ws, active := windows, activeWindowId;
      FocusWindow(id);
      TaskbarRestoreEdits(ws, id, k, active, m, windows);
      // the second handler of the same click: its updater flips the flag back and
      // gives the z-index the click saw; its counter update adds one more
      windows := MapWhere(windows, id, ToggleMinimized(m + 1));
      activeWindowId := id;
      maxZIndex := maxZIndex + 1;
      TaskbarRestoreKeepsInvariant(ws, id, k, active, m, maxZIndex);
    }
  }

  // ---------------------------------------------------------------------------
  // The taskbar click, on the window list

  /** Restoring a window raises it exactly as focusing it does when it is not minimized. */
  lemma RaiseIsRestoreWhenVisible(ws: seq<WindowData>, id: string, k: nat, z: int)
    requires UniqueIds(ws) && k < |ws| && ws[k].id == id && !ws[k].isMinimized
    ensures MapWhere(ws, id, Raise(z)) == MapWhere(ws, id, Restore(z))
  {
    forall i | 0 <= i < |ws| && ws[i].id == id ensures !ws[i].isMinimized {
      assert i == k;
    }
  }

  /** The taskbar click that brings back a minimized window: the focus step (which runs
      unless the window is already the active one) and the restore step both give the
      window the z-index one above the counter as the click saw it, so together they edit
      the window as one restore does. */
  lemma TaskbarRestoreEdits(ws: seq<WindowData>, id: string, k: nat, active: string, m: int,
                            focused: seq<WindowData>)
    requires UniqueIds(ws) && k < |ws| && ws[k].id == id && ws[k].isMinimized
    requires focused == if active == id then ws else MapWhere(ws, id, Raise(m + 1))
    ensures MapWhere(focused, id, ToggleMinimized(m + 1)) == MapWhere(ws, id, Restore(m + 1))
  {
    forall i | 0 <= i < |ws| && ws[i].id == id ensures ws[i].isMinimized {
      assert i == k;
    }
  }

  /** After that click the window is on top, whatever the counter has risen to. */
  lemma TaskbarRestoreKeepsInvariant(ws: seq<WindowData>, id: string, k: nat, active: string, m: int,
                                     counter: int)
    requires SessionInvariant(ws, active, m) && counter >= m + 1
    requires k < |ws| && ws[k].id == id
    ensures SessionInvariant(MapWhere(ws, id, Restore(m + 1)), id, counter)
  {
    RaiseKeepsInvariant(ws, id, Restore(m + 1), active, m);
  }

  // ---------------------------------------------------------------------------
  // Desktop icon grid

  const GRID_PADDING := 48       // 24 pixels above and below the icon grid
  const ICON_HEIGHT := 112
  const ROW_GAP := 24
  const ROW_HEIGHT := ICON_HEIGHT + ROW_GAP

  /** `calculateMaxRows`: how many rows of desktop icons the grid gets for a container
      of the given height. It is the largest number of whole rows that fit below the
      padding, but never fewer than one. */
  function MaxRows(containerHeight: int): (rows: int)
    ensures rows >= 1
    ensures rows > 1 ==> rows * ROW_HEIGHT <= containerHeight - GRID_PADDING
    ensures containerHeight - GRID_PADDING < (rows + 1) * ROW_HEIGHT
  {
    var rows := (containerHeight - GRID_PADDING) / ROW_HEIGHT;
    if rows < 1 then 1 else rows
  }

  // ---------------------------------------------------------------------------
  // A session

  /** A short session opens the projects window next to the initial one. */
  method OpenProjects() returns (d: Desktop)
    ensures fresh(d) && d.Valid()
    ensures |d.windows| == 2 && d.windows[0].id == "about" && d.windows[1].id == "projects"
    ensures !d.windows[1].isMinimized && d.windows[1].zIndex == 11 && d.maxZIndex == 11
  {
    d := new Desktop();
    assert APPS[1].id == "projects";
    d.OpenWindow(APPS[1]);
  }

  /** It goes on to minimize the projects window and focus the initial one. */
  method OpenMinimizeSwitch() returns (d: Desktop)
    ensures fresh(d) && d.Valid()
    ensures |d.windows| == 2 && d.windows[1].id == "projects" && d.windows[1].isMinimized
    ensures d.windows[1].zIndex == 11 && d.activeWindowId == "about" && d.maxZIndex == 12
  {
    d := OpenProjects();
    ghost var shown := d.windows;
    assert FindWindow(shown, "projects") == Some(shown[1]) by { FindUnique(shown, "projects", 1); }
    d.ToggleMinimize("projects");
    ghost var minimized := d.windows;
    assert minimized[1] == Apply(ToggleMinimized(12), shown[1]) && minimized[0] == shown[0];
    d.FocusWindow("about");
    assert d.windows[1] == minimized[1];
  }

  /** The session continued: the projects window is brought back from the taskbar.
      The two handlers of that click both assign the z-index the click saw, so the
      window ends one below the counter. */
  method TaskbarSession()
  {
    var d := OpenMinimizeSwitch();
    d.TaskbarClick(1);
    assert d.windows[1].zIndex == 13 && !d.windows[1].isMinimized;
    assert d.activeWindowId == "projects" && d.maxZIndex == 14;
  }
}

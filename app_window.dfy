/** The window frame: which renderer a window record selects, the size and position a
    resize gesture asks for, and the two guards on pointer gestures (the resize
    handles exist only for a window that is not maximized, and a window drags only
    when it is neither maximized nor being resized). */
module AppWindow {

  import opened Types
  import opened JsBuiltins
  import opened Constants
  import opened Desktop

  // ---------------------------------------------------------------------------
  // Content routing

  /** The renderer a window shows; `NotePad` carries the text it is given. */
  datatype Content =
    | TerminalView
    | ExplorerView
    | CreditsView
    | NotePad(text: string)
    | WelcomeView
    | MailView
    | GameView
    | ChatView
    | NotFound

  /** The window types that have a renderer. "music" is a type of the record but not
      one of them. */
  const ROUTED_KINDS: set<string> := {"terminal", "explorer", "notepad", "mail", "game", "chat"}

  /** The document shown by a project window whose id, after the prefix, is `rest`:
      `parseInt` of it, looked up in the project table; NaN matches no project id, so
      it gives the empty document like any unknown id. */
  function ProjectText(rest: string): string {
    match ParseInt(rest)
    case None => ""
    case Some(n) => GetProjectContent(n)
  }

  /** `getWindowContent`: the renderer chosen by the window's type and, for notepad
      windows, by its id. */
  function WindowContent(kind: string, id: string): (c: Content)
    ensures c == NotFound <==> kind !in ROUTED_KINDS
    ensures c.NotePad? || c == CreditsView || c == WelcomeView <==> kind == "notepad"
    ensures c == TerminalView <==> kind == "terminal"
    ensures c == ExplorerView <==> kind == "explorer"
    ensures c == MailView <==> kind == "mail"
    ensures c == GameView <==> kind == "game"
    ensures c == ChatView <==> kind == "chat"
    ensures kind == "notepad" ==>
              (c == CreditsView <==> id == "credits") &&
              (c.NotePad? <==> id != "credits" && StartsWith(id, PROJECT_ID_PREFIX)) &&
              (c.NotePad? ==> c.text == ProjectText(id[|PROJECT_ID_PREFIX|..]))
  {
    match kind
    case "terminal" => TerminalView
    case "explorer" => ExplorerView
    case "notepad" =>
      if id == "credits" then CreditsView
      // `id.replace("project-", "")` drops the first occurrence, which is the prefix
      else if StartsWith(id, PROJECT_ID_PREFIX) then NotePad(ProjectText(id[|PROJECT_ID_PREFIX|..]))
      else WelcomeView
    case "mail" => MailView
    case "game" => GameView
    case "chat" => ChatView
    case _ => NotFound
  }

  /** A notepad window whose id carries the project prefix shows the document named
      by the rest of its id. */
  lemma PrefixedIdShowsProject(rest: string)
    ensures WindowContent("notepad", PROJECT_ID_PREFIX + rest) == NotePad(ProjectText(rest))
  {
    var id := PROJECT_ID_PREFIX + rest;
    assert id[|PROJECT_ID_PREFIX|..] == rest;
    assert id != "credits" by {
      assert id[0] == 'p';
    }
  }

  /** A project window, as the project click creates it, shows the very document it
      stored: the number printed into its id parses back to the project id. */
  lemma ProjectWindowShowsItsDocument(projectId: int)
    ensures var id := ProjectWindowId(projectId);
            WindowContent("notepad", id) == NotePad(GetProjectContent(projectId))
  {
    PrefixedIdShowsProject(IntToString(projectId));
    ParseIntRoundTrip(projectId);
  }

  /** Every desktop application opens onto the renderer of its own type: the about
      window shows the welcome text, the projects folder the explorer, the skills
      window the terminal, and so on; the credits window is the other notepad. */
  lemma EveryAppIsRouted()
    ensures forall i :: 0 <= i < |APPS| ==> WindowContent(APPS[i].kind, APPS[i].id) != NotFound
    ensures WindowContent(APPS[0].kind, APPS[0].id) == WelcomeView
    ensures WindowContent(APPS[1].kind, APPS[1].id) == ExplorerView
    ensures WindowContent(APPS[2].kind, APPS[2].id) == TerminalView
    ensures WindowContent(APPS[3].kind, APPS[3].id) == MailView
    ensures WindowContent(APPS[4].kind, APPS[4].id) == GameView
    ensures WindowContent(APPS[5].kind, APPS[5].id) == CreditsView
    ensures WindowContent(APPS[6].kind, APPS[6].id) == ChatView
  {
    AppIdsAreNotProjectIds();
  }

  /** A notepad id with the project prefix and no number after it shows the empty
      document, as an unknown project id does. */
  lemma UnparsableProjectIdShowsNothing(rest: string)
    requires |rest| == 0 || (!IsDecimalDigit(rest[0]) && !IsJsWhitespace(rest[0]) &&
                             rest[0] != '-' && rest[0] != '+')
    ensures WindowContent("notepad", PROJECT_ID_PREFIX + rest) == NotePad("")
  {
    PrefixedIdShowsProject(rest);
    ParseIntRejects(rest);
  }

  // ---------------------------------------------------------------------------
  // Resize gesture

  const MIN_WIDTH := 300
  const MIN_HEIGHT := 200

  /** The handles a window that is not maximized carries, named by the edges they
      move. */
  const RESIZE_HANDLES: seq<string> := ["n", "s", "w", "e", "nw", "ne", "sw", "se"]

  datatype Geometry = Geometry(size: Size, position: Position)

  /** `Math.max` of two integers. */
  function Max(a: int, b: int): (r: int)
    ensures r >= a && r >= b
    ensures r == a || r == b
  {
    if a < b then b else a
  }

  /** The size and position one pointer move asks for, computed from the geometry at
      the start of the gesture and the cursor's offset from where it went down. An
      edge letter in `direction` ("e", "s", "w", "n") moves that edge. The east and
      south edges stop at the minimum size; on the west and north edges a candidate
      below the minimum is dropped and that axis stays at its start values. */
  function ResizeStep(direction: string, start: Geometry, dx: int, dy: int): (r: Geometry)
    // an axis whose edges the direction does not name keeps its start values
    ensures 'e' !in direction && 'w' !in direction ==>
              r.size.width == start.size.width && r.position.x == start.position.x
    ensures 's' !in direction && 'n' !in direction ==>
              r.size.height == start.size.height && r.position.y == start.position.y
    // the east and south edges move, the opposite edge stays
    ensures 'e' in direction && 'w' !in direction ==>
              r.size.width == Max(MIN_WIDTH, start.size.width + dx) && r.position.x == start.position.x
    ensures 's' in direction && 'n' !in direction ==>
              r.size.height == Max(MIN_HEIGHT, start.size.height + dy) && r.position.y == start.position.y
    // the west and north edges move when the result is large enough, and the
    // opposite edge stays in every case
    ensures 'w' in direction && start.size.width - dx >= MIN_WIDTH ==>
              r.size.width == start.size.width - dx && r.position.x == start.position.x + dx
    ensures 'n' in direction && start.size.height - dy >= MIN_HEIGHT ==>
              r.size.height == start.size.height - dy && r.position.y == start.position.y + dy
    ensures 'w' in direction && 'e' !in direction ==>
              r.position.x + r.size.width == start.position.x + start.size.width
    ensures 'n' in direction && 's' !in direction ==>
              r.position.y + r.size.height == start.position.y + start.size.height
    ensures 'w' in direction && 'e' !in direction && start.size.width - dx < MIN_WIDTH ==>
              r.size.width == start.size.width && r.position.x == start.position.x
    ensures 'n' in direction && 's' !in direction && start.size.height - dy < MIN_HEIGHT ==>
              r.size.height == start.size.height && r.position.y == start.position.y
    // a window at least the minimum size stays at least the minimum size
    ensures start.size.width >= MIN_WIDTH ==> r.size.width >= MIN_WIDTH
    ensures start.size.height >= MIN_HEIGHT ==> r.size.height >= MIN_HEIGHT
  {
    var width := if 'e' in direction then Max(MIN_WIDTH, start.size.width + dx) else start.size.width;
    var height := if 's' in direction then Max(MIN_HEIGHT, start.size.height + dy) else start.size.height;
    var westMoves := 'w' in direction && start.size.width - dx >= MIN_WIDTH;
    var northMoves := 'n' in direction && start.size.height - dy >= MIN_HEIGHT;
    Geometry(
      Size(if westMoves then start.size.width - dx else width,
           if northMoves then start.size.height - dy else height),
      Position(if westMoves then start.position.x + dx else start.position.x,
               if northMoves then start.position.y + dy else start.position.y))
  }

  /** On every handle the edge opposite the one dragged stays where it was, and a
      window at least the minimum size stays at least the minimum size. */
  lemma HandlesKeepOppositeEdges(k: nat, start: Geometry, dx: int, dy: int)
    requires k < |RESIZE_HANDLES|
    ensures var d := RESIZE_HANDLES[k];
            var r := ResizeStep(d, start, dx, dy);
            ('e' in d ==> r.position.x == start.position.x) &&
            ('w' in d ==> r.position.x + r.size.width == start.position.x + start.size.width) &&
            ('s' in d ==> r.position.y == start.position.y) &&
            ('n' in d ==> r.position.y + r.size.height == start.position.y + start.size.height) &&
            (start.size.width >= MIN_WIDTH && start.size.height >= MIN_HEIGHT ==>
               r.size.width >= MIN_WIDTH && r.size.height >= MIN_HEIGHT)
  {
    var d := RESIZE_HANDLES[k];
    assert !('e' in d && 'w' in d) && !('n' in d && 's' in d);
  }

  /** Dragging the west edge of a 640-pixel window 500 pixels to the right does not
      leave it 300 wide: the move is dropped and the window keeps its start width and
      left edge. */
  lemma WestDragPastMinimumSnapsBack()
    ensures var start := Geometry(Size(640, 480), Position(50, 50));
            ResizeStep("w", start, 500, 0) == start
  {
  }

  // ---------------------------------------------------------------------------
  // Pointer gestures on one window

  /** What a resize gesture captured when its handle went down: the window, the
      edges, the cursor position and the window's geometry at that moment. */
  datatype Gesture = Gesture(windowId: string, direction: string, startX: int, startY: int,
                             start: Geometry)

  /** The `onResize(id, size, position)` call a pointer move makes. */
  datatype ResizeCall = ResizeCall(id: string, size: Size, position: Position)

  /** The handles the frame of `win` carries: all eight, or none when it is maximized. */
  function Handles(win: WindowData): (hs: seq<string>)
    ensures forall d :: d in hs <==> !win.isMaximized && d in RESIZE_HANDLES
  {
    if win.isMaximized then [] else RESIZE_HANDLES
  }

  /** The frame of one window: whether a resize is under way, and the gesture whose
      move and release listeners are registered on the document. */
  class WindowFrame {
    var isResizing: bool
    var gesture: Option<Gesture>

    /** The flag is set exactly while a gesture's listeners are registered. */
    ghost predicate Valid()
      reads this
    {
      isResizing <==> gesture.Some?
    }

    constructor ()
      ensures Valid() && !isResizing && gesture == None
    {
      isResizing := false;
      gesture := None;
    }

    /** The window follows a title-bar drag only when it is not maximized (the drag
        is started only then) and no resize is under way (dragging is disabled then). */
    predicate DragEnabled(win: WindowData)
      reads this
    {
      !win.isMaximized && !isResizing
    }

    /** A pointer press on the handle `direction` of `win` at (clientX, clientY). A
        maximized window has no handle to press, so nothing happens; otherwise the
        gesture starts and captures the window's geometry and the cursor position. */
    method PressHandle(win: WindowData, direction: string, clientX: int, clientY: int)
      returns (started: bool)
      requires Valid()
      modifies this
      ensures Valid()
      ensures started <==> direction in Handles(win)
      ensures started ==>
                isResizing &&
                gesture == Some(Gesture(win.id, direction, clientX, clientY, Geometry(win.size, win.position)))
      ensures !started ==> isResizing == old(isResizing) && gesture == old(gesture)
    {
      started := direction in Handles(win);
      if started {
        isResizing := true;
        gesture := Some(Gesture(win.id, direction, clientX, clientY, Geometry(win.size, win.position)));
      }
    }

    /** A pointer move to (clientX, clientY): during a gesture, the resize call for
        the offset from where the cursor went down, measured against the geometry
        at the start of the gesture and not against any earlier move. */
    method MovePointer(clientX: int, clientY: int) returns (call: Option<ResizeCall>)
      requires Valid()
      ensures call.Some? <==> gesture.Some?
      ensures gesture.Some? ==>
                var g := gesture.value;
                var r := ResizeStep(g.direction, g.start, clientX - g.startX, clientY - g.startY);
                call == Some(ResizeCall(g.windowId, r.size, r.position))
    {
      match gesture
      case None =>
        call := None;
      case Some(g) =>
        var r := ResizeStep(g.direction, g.start, clientX - g.startX, clientY - g.startY);
        call := Some(ResizeCall(g.windowId, r.size, r.position));
    }

    /** Releasing the mouse button ends the gesture and removes its listeners. */
    method ReleasePointer()
      requires Valid()
      modifies this
      ensures Valid() && !isResizing && gesture == None
    {
      isResizing := false;
      gesture := None;
    }

    /** A pointer press on the title bar: whether the window then follows the cursor. */
    method PressTitleBar(win: WindowData) returns (drags: bool)
      requires Valid()
      ensures drags <==> !win.isMaximized && !isResizing
    {
      drags := !win.isMaximized && !isResizing;
    }
  }

  /** Moving the cursor back to where it went down asks for the geometry the gesture
      started from, whatever the handle, when the window is at least the minimum size. */
  lemma ZeroOffsetKeepsGeometry(direction: string, start: Geometry)
    requires start.size.width >= MIN_WIDTH && start.size.height >= MIN_HEIGHT
    ensures ResizeStep(direction, start, 0, 0) == start
  {
  }

  /** A resize call made during a gesture changes the window exactly as the frame
      computed: it becomes that size at that position, and the session keeps its
      invariant. */
  method ResizeDuringGesture(d: Desktop, frame: WindowFrame, clientX: int, clientY: int)
    requires d.Valid() && frame.Valid()
    modifies d
    ensures d.Valid()
    ensures d.activeWindowId == old(d.activeWindowId) && d.maxZIndex == old(d.maxZIndex)
    ensures frame.gesture.None? ==> d.windows == old(d.windows)
    ensures frame.gesture.Some? ==>
              var g := frame.gesture.value;
              var r := ResizeStep(g.direction, g.start, clientX - g.startX, clientY - g.startY);
              d.windows == MapWhere(old(d.windows), g.windowId, ResizeTo(r.size, Some(r.position)))
  {
    var call := frame.MovePointer(clientX, clientY);
    if call.Some? {
      d.ResizeWindow(call.value.id, call.value.size, Some(call.value.position));
    }
  }
}

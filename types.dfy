/** The records shared by the window manager, the window component and the
    static tables: geometry, the window record and the application descriptor. */
module Types {

  /** A value that may be absent (an optional field, or `find` that matched nothing). */
  datatype Option<T> = None | Some(value: T)

  /** Top-left corner of a window, in viewport pixels; may be negative or off-screen. */
  datatype Position = Position(x: int, y: int)

  datatype Size = Size(width: int, height: int)

  /** One open window. `kind` is the source's `type` tag, which selects the content
      renderer; `content` is the optional text stored when the window is created.
      The `onProjectClick` callback the page attaches at render time is not part of
      the stored record. */
  datatype WindowData = WindowData(
    id: string,
    title: string,
    kind: string,
    isOpen: bool,
    isMinimized: bool,
    isMaximized: bool,
    zIndex: int,
    position: Position,
    size: Size,
    content: Option<string>)

  /** A launchable application on the desktop; the icon component is left out. */
  datatype AppData = AppData(id: string, title: string, kind: string, color: string)
}

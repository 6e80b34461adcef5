/** Small wrapper datatypes shared by both versions of the widget. */
module Common {

  /** A value that may be missing (`null` / `undefined` in the source). */
  datatype Option<+T> = None | Some(value: T)

  /**
   * What one `localStorage` key holds when a JSON value is read back:
   * nothing (`getItem` returns `null`), text that `JSON.parse` rejects,
   * or a value that parses.
   */
  datatype Slot<+T> = Absent | Malformed | Present(value: T)
}

/**
 * Shared records of the reader: the persisted book entry and the
 * configuration defaults.
 */
module Types {

  datatype Option<+T> = None | Some(value: T) {
    /** The carried value, or `default` when there is none (the `??` operator). */
    function GetOr(default: T): T {
      match this
      case Some(v) => v
      case None => default
    }
  }

  /**
   * One entry of the reading list: `process` is the index of the current line,
   * `offset` the code-unit offset within that line (absent on fresh entries).
   */
  datatype BookData = BookData(id: string, name: string, process: int, offset: Option<nat>, url: string)

  /** Default of the `displayWidth` setting: width budget of one status-bar row. */
  const DefaultDisplayWidth: int := 45

  /** Default of the `displayLines` setting: rows shown per page. */
  const DefaultDisplayLines: int := 1
}

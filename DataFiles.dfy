/**
 * The JSON data files the routes read: what a read yields, and the
 * `initDataFiles` step every admin handler awaits first, which creates a
 * missing file with its initial contents.
 */
module DataFiles {

  /**
   * The outcome of reading and parsing one data file: the file does not
   * exist, it exists but cannot be read or parsed, or it holds `contents`.
   */
  datatype DataFile<+T> = Missing | Unreadable | Parsed(contents: T)

  /**
   * The file as an admin handler reads it after `initDataFiles`: a missing
   * file has just been written with `initial`; any other file is read as
   * it was.
   */
  function Initialized<T>(file: DataFile<T>, initial: T): (f: DataFile<T>)
    ensures !f.Missing?
    ensures file.Missing? ==> f == Parsed(initial)
    ensures !file.Missing? ==> f == file
  {
    if file.Missing? then Parsed(initial) else file
  }

  /** The parsed contents, or `fallback` when the file is missing or cannot be read. */
  function ContentsOr<T>(file: DataFile<T>, fallback: T): (c: T)
    ensures file.Parsed? ==> c == file.contents
    ensures !file.Parsed? ==> c == fallback
  {
    if file.Parsed? then file.contents else fallback
  }

  /**
   * Falling back to the initial contents gives the same value whether or
   * not the file was initialized first.
   */
  lemma FallbackAfterInit<T>(file: DataFile<T>, initial: T)
    ensures ContentsOr(Initialized(file, initial), initial) == ContentsOr(file, initial)
  {
  }
}

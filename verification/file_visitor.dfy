/**
 * `FileVisitor` and `FunctionalFileVisitor`: what a visitor does with one
 * entry of a traversal. The base visitor sends directories to
 * `onDirectory` and everything else to `onFile`, and both accept. The
 * functional visitor forwards to the callbacks it was given and refuses
 * where it has none.
 *
 * The entry is seen through the handle's two answers, `isDirectory()` and
 * `isFile()`; both can hold at once for an SSH handle, whose type tests
 * are bitwise. A callback's own result for the handle is `answer`: at
 * most one callback runs per call, so one value is enough.
 */
module FileVisitors {
  /**
   * The base class, or a `FunctionalFileVisitor` with each of its three
   * `std::function`s set or empty.
   */
  datatype Visitor =
    | Base
    | Functional(funcFileEntry: bool, funcFile: bool, funcDirectory: bool)

  /** The callback a call ends in, if any. */
  datatype Callee = EntryFunction | FileFunction | DirectoryFunction | NoFunction

  /** What a call did: the callback it ran, and the value it returned. */
  datatype Visit = Visit(callee: Callee, result: bool)

  /** `FunctionalFileVisitor()`: no callback set. */
  function Empty(): (v: Visitor)
    ensures v.Functional? && !v.funcFileEntry && !v.funcFile && !v.funcDirectory
  {
    Functional(false, false, false)
  }

  /** `FunctionalFileVisitor(funcFileEntry)`: only the entry callback is set (if the function given is). */
  function ForEntries(hasFunction: bool): (v: Visitor)
    ensures v.Functional? && v.funcFileEntry == hasFunction && !v.funcFile && !v.funcDirectory
  {
    Functional(hasFunction, false, false)
  }

  /** `FunctionalFileVisitor(funcFile, funcDirectory)`: the entry callback stays empty. */
  function ForFilesAndDirectories(hasFile: bool, hasDirectory: bool): (v: Visitor)
    ensures v.Functional? && !v.funcFileEntry && v.funcFile == hasFile && v.funcDirectory == hasDirectory
  {
    Functional(false, hasFile, hasDirectory)
  }

  /** `onFile`: the base accepts; the functional visitor returns its file callback's result, or false. */
  function OnFile(v: Visitor, answer: bool): (r: Visit)
    ensures v.Base? ==> r == Visit(NoFunction, true)
    ensures v.Functional? && v.funcFile ==> r == Visit(FileFunction, answer)
    ensures v.Functional? && !v.funcFile ==> r == Visit(NoFunction, false)
  {
    match v
    case Base => Visit(NoFunction, true)
    case Functional(_, funcFile, _) => if funcFile then Visit(FileFunction, answer) else Visit(NoFunction, false)
  }

  /** `onDirectory`: the base accepts, so the base visitor descends everywhere; the functional one as `onFile`. */
  function OnDirectory(v: Visitor, answer: bool): (r: Visit)
    ensures v.Base? ==> r == Visit(NoFunction, true)
    ensures v.Functional? && v.funcDirectory ==> r == Visit(DirectoryFunction, answer)
    ensures v.Functional? && !v.funcDirectory ==> r == Visit(NoFunction, false)
  {
    match v
    case Base => Visit(NoFunction, true)
    case Functional(_, _, funcDirectory) =>
      if funcDirectory then Visit(DirectoryFunction, answer) else Visit(NoFunction, false)
  }

  /**
   * `onFileEntry`. The base: a directory goes to `onDirectory`, every
   * other entry (a missing one too) to `onFile`. The functional visitor:
   * the entry callback alone when it is set; otherwise a directory goes to
   * `onDirectory`, then a file to `onFile`, and anything else is refused
   * without a call.
   */
  function OnFileEntry(v: Visitor, isDirectory: bool, isFile: bool, answer: bool): (r: Visit)
    ensures v.Base? ==> r == (if isDirectory then OnDirectory(v, answer) else OnFile(v, answer))
    ensures v.Functional? && v.funcFileEntry ==> r == Visit(EntryFunction, answer)
    ensures v.Functional? && !v.funcFileEntry && isDirectory ==> r == OnDirectory(v, answer)
    ensures v.Functional? && !v.funcFileEntry && !isDirectory && isFile ==> r == OnFile(v, answer)
    ensures v.Functional? && !v.funcFileEntry && !isDirectory && !isFile ==> r == Visit(NoFunction, false)
  {
    match v
    case Base => if isDirectory then OnDirectory(v, answer) else OnFile(v, answer)
    case Functional(funcFileEntry, _, _) =>
      if funcFileEntry then Visit(EntryFunction, answer)
      else if isDirectory then OnDirectory(v, answer)
      else if isFile then OnFile(v, answer)
      else Visit(NoFunction, false)
  }

  /** The base visitor accepts every entry and runs no callback. */
  lemma BaseAcceptsAll(isDirectory: bool, isFile: bool, answer: bool)
    ensures OnFileEntry(Base, isDirectory, isFile, answer) == Visit(NoFunction, true)
  {
  }

  /**
   * A callback runs exactly when the one the entry reaches is set, and a
   * call that runs none accepts only in the base visitor.
   */
  lemma CalleeIsSet(v: Visitor, isDirectory: bool, isFile: bool, answer: bool)
    ensures var r := OnFileEntry(v, isDirectory, isFile, answer);
      (r.callee == EntryFunction ==> v.Functional? && v.funcFileEntry) &&
      (r.callee == FileFunction ==> v.Functional? && v.funcFile && !isDirectory && isFile) &&
      (r.callee == DirectoryFunction ==> v.Functional? && v.funcDirectory && isDirectory) &&
      (r.callee != NoFunction ==> r.result == answer) &&
      (r.callee == NoFunction ==> (r.result <==> v.Base?))
  {
  }

  /**
   * The two visitors part ways on an entry that is neither a directory
   * nor a file (one that does not exist): the base hands it to `onFile`,
   * the functional visitor refuses it even with a file callback set.
   */
  lemma MissingEntry(answer: bool)
    ensures OnFileEntry(Base, false, false, answer) == OnFile(Base, answer)
    ensures OnFileEntry(ForFilesAndDirectories(true, true), false, false, answer) == Visit(NoFunction, false)
    ensures OnFile(ForFilesAndDirectories(true, true), answer) == Visit(FileFunction, answer)
  {
  }

  /** The entry callback takes precedence over the other two. */
  lemma EntryFunctionWins(v: Visitor, isDirectory: bool, isFile: bool, answer: bool)
    requires v.Functional? && v.funcFileEntry
    ensures OnFileEntry(v, isDirectory, isFile, answer).callee == EntryFunction
  {
  }
}

/**
 * File events and `FileEventHandler`: the event bits a watcher reports,
 * whether a watch descends into subdirectories, and the dispatch of an
 * event to one of the handler's three hooks.
 */
module FileEvents {
  /**
   * The `FileEvent` bits. The enumeration's declaration is not part of
   * this model; these are the values the rest of the library combines
   * with `|` and tests with `&`.
   */
  const FileCreated: bv32 := 0x1
  const FileRemoved: bv32 := 0x2
  const FileModified: bv32 := 0x4
  const FileAttrChanged: bv32 := 0x8

  /** `RecursiveMode`; a value-initialised one is NotRecursive. */
  datatype RecursiveMode = NotRecursive | Recursive

  /**
   * What `onFileEvent` runs: one of the three hooks, the callback of a
   * `FunctionalFileEventHandler`, or nothing.
   */
  datatype Hook = OnFileCreated | OnFileRemoved | OnFileModified | CallsFunction | NoHook

  /**
   * `FileEventHandler::onFileEvent`: the created hook wins over the
   * removed hook, which wins over the modified hook; an attribute change
   * alone, or no bit at all, runs none.
   */
  function HookOf(event: bv32): (r: Hook)
    ensures event & FileCreated != 0 ==> r == OnFileCreated
    ensures event & FileCreated == 0 && event & FileRemoved != 0 ==> r == OnFileRemoved
    ensures event & FileCreated == 0 && event & FileRemoved == 0 && event & FileModified != 0 ==> r == OnFileModified
    ensures r == NoHook <==> event & (FileCreated | FileRemoved | FileModified) == 0
  {
    if event & FileCreated != 0 then OnFileCreated
    else if event & FileRemoved != 0 then OnFileRemoved
    else if event & FileModified != 0 then OnFileModified
    else NoHook
  }

  /** Exactly one hook runs for each single event other than an attribute change. */
  lemma SingleEventsReachTheirHook()
    ensures HookOf(FileCreated) == OnFileCreated
    ensures HookOf(FileRemoved) == OnFileRemoved
    ensures HookOf(FileModified) == OnFileModified
    ensures HookOf(FileAttrChanged) == NoHook && HookOf(0) == NoHook
  {
  }

  /**
   * An event handler a watcher can hold: one written against the base
   * class, or the `FunctionalFileEventHandler` wrapper around a callback.
   * Handlers are told apart by identity. The default hooks do nothing, so
   * what a call does is which hook it reaches.
   */
  class FileEventHandler {
    /** Whether this is the callback wrapper. */
    const functional: bool
    /** Whether the wrapper's `std::function` is set. */
    const hasFunction: bool

    constructor ()
      ensures !functional && !hasFunction
    {
      functional := false;
      hasFunction := false;
    }

    /** A `FunctionalFileEventHandler` around a callback that may be empty. */
    constructor Functional(hasFunction: bool)
      ensures functional && this.hasFunction == hasFunction
    {
      functional := true;
      this.hasFunction := hasFunction;
    }

    /**
     * `onFileEvent`: the base class picks a hook by the event's bits; the
     * wrapper calls its function for every event, whatever the bits, when
     * the function is set.
     */
    function OnFileEvent(event: bv32): (r: Hook)
      ensures !functional ==> r == HookOf(event) && r != CallsFunction
      ensures functional ==> (r == CallsFunction <==> hasFunction) && (r == NoHook <==> !hasFunction)
    {
      if !functional then HookOf(event)
      else if hasFunction then CallsFunction
      else NoHook
    }
  }
}

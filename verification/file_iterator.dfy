/**
 * `FileIterator`: the value type that owns an iterator backend, or none
 * (the end iterator). Comparison looks only at validity, file system,
 * path and index; dereference and increment forward to the backend.
 */
module FileIterators {
  import opened Wrappers
  import opened Host
  import opened Backend
  import opened Iterators

  /**
   * What `operator==` compares: an invalid iterator (no backend, or a
   * backend that is not valid) is Invalid; a valid one is at an index of
   * a path on a file system.
   */
  datatype Position = Invalid | At(fs: FileSystem, path: string, index: int)

  class FileIterator {
    var backend: IteratorBackend?

    ghost predicate Inv()
      reads this, backend
    {
      backend != null ==> backend.Inv()
    }

    /** The end iterator: no backend. */
    constructor ()
      ensures backend == null && Inv()
    {
      backend := null;
    }

    /** An iterator owning `b`. */
    constructor Of(b: IteratorBackend)
      requires b.Inv()
      ensures backend == b && Inv()
    {
      backend := b;
    }

    /** The copy constructor: a clone of the other's backend, or none. */
    constructor CopyOf(other: FileIterator)
      requires other.Inv()
      ensures Inv() && (backend == null <==> other.backend == null)
      ensures backend != null ==> fresh(backend) && backend.Twins(other.backend)
    {
      if other.backend != null {
        var twin := other.backend.Clone();
        backend := twin;
      } else {
        backend := null;
      }
    }

    /** The move constructor: the backend changes owner and the other is left without one. */
    constructor MovedFrom(other: FileIterator)
      modifies other
      ensures backend == old(other.backend) && other.backend == null
    {
      backend := other.backend;
      new;
      other.backend := null;
    }

    /** `operator=`: a clone of the other's backend, or none. */
    method Assign(other: FileIterator)
      requires other.Inv()
      modifies this
      ensures Inv() && (backend == null <==> other.backend == null)
      ensures backend != null ==> fresh(backend) && backend.Twins(other.backend)
    {
      if other.backend != null {
        var twin := other.backend.Clone();
        backend := twin;
      } else {
        backend := null;
      }
    }

    /** Where the iterator stands, as far as comparison can tell. */
    function Position(): Position
      reads this, backend
    {
      if backend != null && backend.Valid() then At(backend.fs, backend.path, backend.index) else Invalid
    }

    /**
     * `operator*`: the current name, `""` when the iterator is not valid;
     * a valid one names the first of the names still to come, never a dot.
     */
    function Name(): (r: string)
      reads this, backend
      ensures Position().Invalid? ==> r == ""
      ensures Inv() && Position().At? ==>
        !IsDot(r) && Remaining() != [] && r == Remaining()[0]
    {
      if backend == null then "" else backend.Name()
    }

    /** The names a full walk from here reaches, the current one first. */
    ghost function Remaining(): seq<string>
      reads this, backend
      requires Inv()
    {
      if backend == null then [] else Rest(backend.fs.platform, backend.RawEntries(), backend.State())
    }

    /** `operator++`: the backend reads its next entry; without one nothing happens. */
    method Next()
      requires Inv()
      modifies backend
      ensures Inv()
      ensures backend != null ==>
        backend.State() == Step(backend.fs.platform, backend.RawEntries(), old(backend.State()))
      ensures old(Position()).At? ==> Remaining() == old(Remaining())[1..]
    {
      if backend != null {
        backend.Next();
      }
    }

    /**
     * `operator==`: two valid iterators are equal when file system, path
     * and index agree, and otherwise when both are invalid; that is, when
     * they stand at the same position.
     */
    function Equals(other: FileIterator): (r: bool)
      reads this, backend, other, other.backend
      ensures r <==> Position() == other.Position()
    {
      var valid1 := backend != null && backend.Valid();
      var valid2 := other.backend != null && other.backend.Valid();
      if valid1 && valid2 then
        backend.fs == other.backend.fs && backend.path == other.backend.path && backend.index == other.backend.index
      else valid1 == valid2
    }

    /** `operator!=`: the negation of `operator==`. */
    function NotEquals(other: FileIterator): (r: bool)
      reads this, backend, other, other.backend
      ensures r <==> Position() != other.Position()
    {
      !Equals(other)
    }
  }

  /** Every iterator that is not valid, with or without a backend, equals the end iterator. */
  lemma InvalidEqualsEnd(it: FileIterator, end: FileIterator)
    requires end.backend == null
    ensures it.Equals(end) <==> !(it.backend != null && it.backend.Valid())
  {
  }

  /** Equality of iterators is an equivalence: reflexive, symmetric and transitive. */
  lemma EqualsIsEquivalence(a: FileIterator, b: FileIterator, c: FileIterator)
    ensures a.Equals(a)
    ensures a.Equals(b) ==> b.Equals(a)
    ensures a.Equals(b) && b.Equals(c) ==> a.Equals(c)
  {
  }
}

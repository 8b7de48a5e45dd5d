/**
 * `cppfs::Change`: one entry of a diff, an operation on a path, and its
 * one-line text form.
 */
module Change {
  import Wrappers

  /** What a diff entry asks for; `None` is the default. */
  datatype Operation = None | CopyFile | CopyDir | RemoveFile | RemoveDir

  datatype Change = Change(operation: Operation, path: string)

  /** A default-constructed change: no operation on the empty path. */
  const Default := Change(None, "")

  /** True when `s` begins with `prefix`. */
  predicate StartsWith(s: string, prefix: string)
  {
    |prefix| <= |s| && s[..|prefix|] == prefix
  }

  /**
   * The text form: a keyword, a space and the path; a change without an
   * operation prints as `NOOP` whatever its path.
   */
  function ToString(c: Change): (r: string)
    ensures c.operation.None? <==> r == "NOOP"
    ensures !c.operation.None? ==> |c.path| < |r| && r[|r| - |c.path|..] == c.path
  {
    match c.operation
    case CopyFile => assert ("CP " + c.path)[0] != "NOOP"[0]; "CP " + c.path
    case CopyDir => "CPDIR " + c.path
    case RemoveFile => "RM " + c.path
    case RemoveDir => "RMDIR " + c.path
    case None => "NOOP"
  }

  /** Reads one line of text form back into a change. */
  function Parse(line: string): Wrappers.Option<Change>
  {
    if line == "NOOP" then Wrappers.Some(Default)
    else if StartsWith(line, "CPDIR ") then Wrappers.Some(Change(CopyDir, line[6..]))
    else if StartsWith(line, "RMDIR ") then Wrappers.Some(Change(RemoveDir, line[6..]))
    else if StartsWith(line, "CP ") then Wrappers.Some(Change(CopyFile, line[3..]))
    else if StartsWith(line, "RM ") then Wrappers.Some(Change(RemoveFile, line[3..]))
    else Wrappers.None
  }

  /**
   * A change can be read back from its text form, except that a change
   * without an operation loses its path.
   */
  lemma ParseToString(c: Change)
    requires !c.operation.None? || c.path == ""
    ensures Parse(ToString(c)) == Wrappers.Some(c)
  {
    var line := ToString(c);
    match c.operation
    case CopyFile =>
      assert line[..3] == "CP ";
      assert line[2] != "CPDIR "[2] && line[2] != "RMDIR "[2] && line[0] != 'N';
    case CopyDir =>
      assert line[..6] == "CPDIR ";
      assert line[0] != 'N';
    case RemoveFile =>
      assert line[..3] == "RM ";
      assert line[0] != "CPDIR "[0] && line[2] != "RMDIR "[2] && line[0] != 'N';
    case RemoveDir =>
      assert line[..6] == "RMDIR ";
      assert line[0] != "CPDIR "[0] && line[0] != 'N';
    case None =>
  }

  /**
   * Two changes print the same exactly when they have the same operation
   * and, unless that operation is `None`, the same path.
   */
  lemma SameText(a: Change, b: Change)
    ensures ToString(a) == ToString(b)
      <==> a.operation == b.operation && (a.operation.None? || a.path == b.path)
  {
    if ToString(a) == ToString(b) && !a.operation.None? {
      ParseToString(a);
      ParseToString(b);
    }
  }

  /** A newline-free path gives a newline-free line. */
  lemma SingleLine(c: Change)
    requires '\n' !in c.path
    ensures '\n' !in ToString(c)
  {
    var line := ToString(c);
    if !c.operation.None? {
      var k := |line| - |c.path|;
      forall i | 0 <= i < |line|
        ensures line[i] != '\n'
      {
        if i >= k {
          assert line[i] == c.path[i - k];
        }
      }
    }
  }
}

/**
 * `cppfs::Diff`: an ordered list of changes that is appended to, cleared
 * and printed one change per line.
 */
module Diff {
  import Wrappers
  import opened StdString
  import opened Change

  /** The text `print` writes for `changes`: each change's line and a newline. */
  function Render(changes: seq<Change>): string
  {
    if changes == [] then ""
    else Render(changes[..|changes| - 1]) + ToString(changes[|changes| - 1]) + "\n"
  }

  /** Printing two lists one after the other prints their concatenation. */
  lemma {:induction false} RenderAppend(a: seq<Change>, b: seq<Change>)
    ensures Render(a + b) == Render(a) + Render(b)
    decreases |b|
  {
    if b == [] {
      assert a + b == a;
    } else {
      var front, line := b[..|b| - 1], ToString(b[|b| - 1]) + "\n";
      assert (a + b)[..|a + b| - 1] == a + front;
      assert (a + b)[|a + b| - 1] == b[|b| - 1];
      assert Render(a + b) == Render(a + front) + line;
      RenderAppend(a, front);
      assert Render(b) == Render(front) + line;
      ConcatAssociative(Render(a), Render(front), line);
    }
  }

  /** A single change prints as its line and a newline. */
  lemma RenderOne(c: Change)
    ensures Render([c]) == ToString(c) + "\n"
  {
    assert [c][..0] == [];
  }

  /** The text of a list starts with the line of its first change. */
  lemma RenderFirst(c: Change, rest: seq<Change>)
    ensures Render([c] + rest) == ToString(c) + "\n" + Render(rest)
  {
    RenderAppend([c], rest);
    RenderOne(c);
  }

  /** A change the text form keeps whole: on one line, with its path. */
  predicate Printable(c: Change)
  {
    (!c.operation.None? || c.path == "") && '\n' !in c.path
  }

  /** Reads printed text back, one change per newline-terminated line. */
  function ParseLines(text: string): Wrappers.Option<seq<Change>>
    decreases |text|
  {
    if text == [] then Wrappers.Some([])
    else match FindChar(text, '\n', 0)
      case None => Wrappers.None
      case Some(k) =>
        match Parse(text[..k])
        case None => Wrappers.None
        case Some(c) =>
          match ParseLines(text[k + 1..])
          case None => Wrappers.None
          case Some(rest) => Wrappers.Some([c] + rest)
  }

  /** The printed form of printable changes reads back as the same list. */
  lemma {:induction false} ParseRender(changes: seq<Change>)
    requires forall i :: 0 <= i < |changes| ==> Printable(changes[i])
    ensures ParseLines(Render(changes)) == Wrappers.Some(changes)
    decreases |changes|
  {
    if changes == [] {
    } else {
      var c, rest := changes[0], changes[1..];
      assert changes == [c] + rest;
      RenderFirst(c, rest);
      var line := ToString(c);
      var text := Render(changes);
      assert text == line + "\n" + Render(rest);
      SingleLine(c);
      assert text[|line|] == '\n';
      assert forall i :: 0 <= i < |line| ==> text[i] == line[i];
      assert FindChar(text, '\n', 0) == Wrappers.Some(|line|);
      assert text[..|line|] == line;
      assert text[|line| + 1..] == Render(rest);
      ParseToString(c);
      ParseRender(rest);
    }
  }

  /** The change list a tree comparison or a caller builds up. */
  class Diff {
    var changes: seq<Change>

    /** An empty diff. */
    constructor ()
      ensures changes == []
    {
      changes := [];
    }

    /** Drops every change. */
    method Clear()
      modifies this
      ensures changes == []
    {
      changes := [];
    }

    /** The recorded changes, in the order they were added. */
    function Changes(): (r: seq<Change>)
      reads this
      ensures |r| == |changes| && forall i :: 0 <= i < |r| ==> r[i] == changes[i]
    {
      changes
    }

    /** Appends `change` after the existing ones. */
    method Add(change: Change)
      modifies this
      ensures changes == old(changes) + [change]
    {
      changes := changes + [change];
    }

    /** Appends a change built from `operation` and `path`. */
    method AddOperation(operation: Operation, path: string)
      modifies this
      ensures changes == old(changes) + [Change(operation, path)]
    {
      changes := changes + [Change(operation, path)];
    }

    /** The text written to the stream: one line per change, in order. */
    method Print() returns (text: string)
      ensures text == Render(changes)
    {
      text := "";
      var i := 0;
      while i < |changes|
        invariant 0 <= i <= |changes|
        invariant text == Render(changes[..i])
      {
        assert changes[..i + 1][..i] == changes[..i];
        text := text + ToString(changes[i]) + "\n";
        i := i + 1;
      }
      assert changes[..i] == changes;
    }
  }
}

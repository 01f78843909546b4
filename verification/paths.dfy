/**
 * Filesystem paths as the configuration code uses them, reduced to segment lists.
 *
 * A `Path` is an absolute path, given as its segments below the filesystem
 * root (`/proj/a` is `["proj", "a"]`, the root is `[]`). Segments may be
 * `.` or `..` until the path is cleaned. Path text is split on `/`, and empty
 * pieces (from `//` or a trailing `/`) are dropped.
 *
 * `Walk` is the one rule behind both a relative path's logical resolution
 * against a base directory (a `.` component keeps the base, `..` pops one
 * segment of it, a name is pushed) and lexical cleaning, which is the same
 * walk started at the root.
 */
module Paths {
  import opened Wrappers

  type Path = seq<string>

  // ---------------------------------------------------------------------
  // Text

  predicate EndsWith(s: string, suffix: string) {
    |suffix| <= |s| && s[|s| - |suffix|..] == suffix
  }

  /** The pending piece as a list: nothing when it is empty. */
  function Flush(piece: string): seq<string> {
    if piece == "" then [] else [piece]
  }

  /** Splits `s` on `/`, with `piece` the text already read of the current piece. */
  function SplitFrom(s: string, piece: string): (r: seq<string>)
    requires '/' !in piece
    ensures forall i :: 0 <= i < |r| ==> r[i] != "" && '/' !in r[i]
    decreases |s|
  {
    if s == [] then Flush(piece)
    else if s[0] == '/' then Flush(piece) + SplitFrom(s[1..], "")
    else SplitFrom(s[1..], piece + [s[0]])
  }

  /** The non-empty pieces of `s` between the `/` separators, in order. */
  function Split(s: string): seq<string> {
    SplitFrom(s, "")
  }

  /** A separator ends the piece before it: splitting distributes over `a + "/" + b`. */
  lemma {:induction false} SplitAtSlash(a: string, b: string, piece: string)
    requires '/' !in piece
    ensures SplitFrom(a + ['/'] + b, piece) == SplitFrom(a, piece) + Split(b)
    decreases |a|
  {
    if a == [] {
      assert a + ['/'] + b == ['/'] + b;
      assert (['/'] + b)[1..] == b;
    } else if a[0] == '/' {
      assert (a + ['/'] + b)[1..] == a[1..] + ['/'] + b;
      SplitAtSlash(a[1..], b, "");
    } else {
      assert (a + ['/'] + b)[1..] == a[1..] + ['/'] + b;
      SplitAtSlash(a[1..], b, piece + [a[0]]);
    }
  }

  /** Text without a separator is one piece (or none, when it is empty). */
  lemma {:induction false} SplitNoSlash(a: string, piece: string)
    requires '/' !in piece && '/' !in a
    ensures SplitFrom(a, piece) == Flush(piece + a)
    decreases |a|
  {
    if a == [] {
      assert piece + a == piece;
    } else {
      assert piece + [a[0]] + a[1..] == piece + a;
      SplitNoSlash(a[1..], piece + [a[0]]);
    }
  }

  // ---------------------------------------------------------------------
  // Segment lists

  function Parent(p: Path): Option<Path> {
    if p == [] then None else Some(p[..|p| - 1])
  }

  /** One component applied to a directory. Popping at the root stays at the root. */
  function Step(dir: Path, segment: string): Path {
    if segment == "" || segment == "." then dir
    else if segment == ".." then (if dir == [] then [] else dir[..|dir| - 1])
    else dir + [segment]
  }

  function Walk(dir: Path, segments: seq<string>): Path
    decreases |segments|
  {
    if segments == [] then dir else Walk(Step(dir, segments[0]), segments[1..])
  }

  /** A path made only of names: no empty, `.` or `..` segment. */
  predicate IsNormal(p: Path) {
    forall i :: 0 <= i < |p| ==> p[i] != "" && p[i] != "." && p[i] != ".."
  }

  lemma {:induction false} WalkKeepsNormal(dir: Path, segments: seq<string>)
    requires IsNormal(dir)
    ensures IsNormal(Walk(dir, segments))
    decreases |segments|
  {
    if segments != [] {
      WalkKeepsNormal(Step(dir, segments[0]), segments[1..]);
    }
  }

  /** Walking names only appends them. */
  lemma {:induction false} WalkNames(dir: Path, segments: seq<string>)
    requires IsNormal(segments)
    ensures Walk(dir, segments) == dir + segments
    decreases |segments|
  {
    if segments != [] {
      WalkNames(dir + [segments[0]], segments[1..]);
      assert dir + [segments[0]] + segments[1..] == dir + segments;
    }
  }

  lemma {:induction false} WalkAppend(dir: Path, s: seq<string>, t: seq<string>)
    ensures Walk(dir, s + t) == Walk(Walk(dir, s), t)
    decreases |s|
  {
    if s == [] {
      assert s + t == t;
    } else {
      assert (s + t)[0] == s[0] && (s + t)[1..] == s[1..] + t;
      WalkAppend(Step(dir, s[0]), s[1..], t);
    }
  }

  /** Lexical normalisation: `.` and empty segments go, `..` removes the segment before it. */
  function Clean(p: Path): Path {
    Walk([], p)
  }

  /** The cleaned path has no empty, `.` or `..` segment. */
  lemma CleanIsNormal(p: Path)
    ensures IsNormal(Clean(p))
  {
    WalkKeepsNormal([], p);
  }

  lemma CleanIdempotent(p: Path)
    ensures Clean(Clean(p)) == Clean(p)
  {
    CleanIsNormal(p);
    WalkNames([], Clean(p));
  }

  /**
   * Resolving segments against a normal directory and cleaning the
   * concatenation agree, and the resolved path is already clean.
   */
  lemma CleanAfterWalk(dir: Path, segments: seq<string>)
    requires IsNormal(dir)
    ensures Clean(dir + segments) == Walk(dir, segments)
    ensures Clean(Walk(dir, segments)) == Walk(dir, segments)
  {
    WalkAppend([], dir, segments);
    WalkNames([], dir);
    assert [] + dir == dir;
    WalkKeepsNormal(dir, segments);
    WalkNames([], Walk(dir, segments));
    assert [] + Walk(dir, segments) == Walk(dir, segments);
  }

  /**
   * `dir` joined with path text: an absolute text replaces `dir`, anything
   * else is appended segment by segment, without resolving `.` or `..`.
   */
  function Join(dir: Path, text: string): Path {
    if |text| > 0 && text[0] == '/' then Split(text) else dir + Split(text)
  }
}

/**
 * The cursor walks of TextBuffer.cpp. The first methods are one per loop
 * shape: each walks a position over a character sequence and stops where
 * the source's loop condition fails. The last ones chain them as
 * move_to_column, up and down do, and state where the cursor ends and on
 * which line and column; the text buffer adds the distances walked to its
 * counters.
 */
module Scans {
  import opened Lines
  import opened Motion

  /** Right while the character at the cursor is not a newline (move_to_row_end, up, down). */
  method ScanToLineEnd(s: seq<char>, p: nat) returns (q: nat)
    requires p <= |s|
    ensures q == LineEnd(s, p)
  {
    LineEndNoNewline(s, p);
    q := p;
    while q != |s| && s[q] != '\n'
      invariant p <= q <= LineEnd(s, p)
    {
      q := q + 1;
    }
  }

  /**
   * Right by at most limit characters while the character at the cursor is
   * not a newline (move_to_column, the last walks of up and down).
   */
  method ScanRight(s: seq<char>, p: nat, limit: int) returns (q: nat)
    requires p <= |s|
    ensures q == p + (if limit <= 0 then 0 else Min(limit, LineEnd(s, p) - p))
  {
    LineEndNoNewline(s, p);
    q := p;
    var steps := 0;
    while q != |s| && s[q] != '\n' && steps < limit
      invariant p <= q <= LineEnd(s, p)
      invariant steps == q - p
      invariant steps == 0 || steps <= limit
    {
      q := q + 1;
      steps := steps + 1;
    }
  }

  /**
   * Left while the character at the cursor is not a newline, stopping at the
   * buffer start (move_to_row_start). Reading the character at the cursor
   * needs p < |s| unless p is the start.
   */
  method ScanBack(s: seq<char>, p: nat) returns (q: nat)
    requires p == 0 || p < |s|
    ensures q == BackStop(s, p)
  {
    q := p;
    while q != 0 && s[q] != '\n'
      invariant q <= p
      invariant BackStop(s, q) == BackStop(s, p)
    {
      q := q - 1;
    }
  }

  /** Left by at most limit characters, as ScanBack (the leftward walk of move_to_column). */
  method ScanLeft(s: seq<char>, p: nat, limit: int) returns (q: nat)
    requires p == 0 || p < |s|
    ensures q == p - (if limit <= 0 then 0 else Min(limit, p - BackStop(s, p)))
  {
    BackStopPassesNoNewline(s, p);
    q := p;
    var steps := 0;
    while q != 0 && s[q] != '\n' && steps < limit
      invariant BackStop(s, p) <= q <= p
      invariant steps == p - q
      invariant steps == 0 || steps <= limit
    {
      q := q - 1;
      steps := steps + 1;
    }
  }

  /** Left while the character before the cursor is not a newline (the line-start walks of up). */
  method ScanLineStart(s: seq<char>, p: nat) returns (q: nat)
    requires p <= |s|
    ensures q == p - ColumnAt(s, p)
  {
    ColumnAtNoNewline(s, p);
    q := p;
    while q != 0 && s[q - 1] != '\n'
      invariant p - ColumnAt(s, p) <= q <= p
    {
      q := q - 1;
    }
  }

  /** The walk of move_to_column from a cursor at p whose column counter reads col, towards t. */
  method WalkToColumn(s: seq<char>, p: nat, col: int, t: int) returns (q: nat)
    requires p <= |s|
    requires t < col ==> p == 0 || p < |s|
    ensures q == p + ColumnShift(s, p, col, t)
    ensures t >= 0 && col == ColumnAt(s, p) ==>
      ColumnAt(s, q) == col + (q - p) && NewlinesBefore(s, q) == NewlinesBefore(s, p)
  {
    q := p;
    if t < col {
      q := ScanLeft(s, p, col - t);
    } else if t > col {
      q := ScanRight(s, p, t - col);
    }
    if t >= 0 && col == ColumnAt(s, p) {
      ColumnShiftInLine(s, p, t, q);
    }
  }

  /**
   * The walks of up as written, after its row-0 guard: to the end e of the
   * line, over the newline there and back onto it, to the start of the line
   * (over a newline found there), then right by the smaller of the two
   * distances walked. It fails, having moved, when e is the buffer start.
   * The newline test after the first walk reads the character at the cursor,
   * so that walk must not end at the end of a non-empty buffer. steps is the
   * number of characters the last walk passed.
   */
  method UpWalk(s: seq<char>, p: nat) returns (moved: bool, q: nat, steps: nat)
    requires p <= |s| && (LineEnd(s, p) == |s| ==> |s| == 0)
    ensures moved <==> LineEnd(s, p) != 0
    ensures !moved ==> q == p
    ensures moved ==> q == UpTarget(s, p) && steps == ColumnAt(s, q)
    ensures moved && ColumnAt(s, LineEnd(s, p)) > 0 ==> NewlinesBefore(s, q) == NewlinesBefore(s, p)
    ensures moved && ColumnAt(s, LineEnd(s, p)) == 0 ==> NewlinesBefore(s, q) == NewlinesBefore(s, p) + 1
  {
    var e := ScanToLineEnd(s, p);
    var oriCounter := e - p;
    q := e;
    if q != 0 && s[q] == '\n' {
      q := q + 1;
    }
    if q == 0 {
      return false, q, 0;
    }
    q := q - 1;
    var ls := ScanLineStart(s, q);
    var prevCounter := q - ls;
    var start := ls;
    if start != 0 && s[start] == '\n' {
      start := start + 1;
    }
    UpStartIs(s, p, ls);
    q := ScanRight(s, start, Min(oriCounter, prevCounter));
    UpTargetLine(s, p);
    return true, q, q - start;
  }

  /**
   * The walks of up as intended, after the row-0 guard: to the start of the
   * line, failing without a move on the first line; over the newline ending
   * the previous line, to that line's start, then right by col at most.
   */
  method IntendedUpWalk(s: seq<char>, p: nat, col: int) returns (moved: bool, q: nat, steps: nat)
    requires p <= |s|
    ensures moved <==> ColumnAt(s, p) < p
    ensures !moved ==> q == p
    ensures moved ==> q == IntendedUpTarget(s, p, col) && steps == ColumnAt(s, q)
    ensures moved ==> NewlinesBefore(s, q) + 1 == NewlinesBefore(s, p)
  {
    var ls := ScanLineStart(s, p);
    if ls == 0 {
      return false, p, 0;
    }
    var prevStart := ScanLineStart(s, ls - 1);
    ColumnAtNoNewline(s, ls - 1);
    LineEndOf(s, prevStart, ls - 1);
    q := ScanRight(s, prevStart, col);
    IntendedUpTargetLine(s, p, col);
    return true, q, q - prevStart;
  }

  /**
   * The walks of down, after its end-of-buffer guard: to the end of the
   * line, failing there at the buffer end; otherwise over the newline and
   * right by col at most.
   */
  method DownWalk(s: seq<char>, p: nat, col: int) returns (moved: bool, q: nat, steps: nat)
    requires p <= |s|
    ensures moved <==> LineEnd(s, p) < |s|
    ensures !moved ==> q == |s| && ColumnAt(s, q) == ColumnAt(s, p) + (q - p)
    ensures !moved ==> NewlinesBefore(s, q) == NewlinesBefore(s, p)
    ensures moved ==> q == DownTarget(s, p, col) && steps == q - (LineEnd(s, p) + 1)
    ensures moved ==> ColumnAt(s, q) == steps && NewlinesBefore(s, q) == NewlinesBefore(s, p) + 1
  {
    var e := ScanToLineEnd(s, p);
    if e == |s| {
      LineEndColumn(s, p);
      return false, e, 0;
    }
    q := ScanRight(s, e + 1, col);
    DownTargetLine(s, p, col);
    return true, q, q - (e + 1);
  }
}

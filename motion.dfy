/**
 * Where the cursor-motion loops of the text buffer leave the cursor, in
 * closed form, and what those positions mean for the line and the column.
 * Each function is the specification of one loop (or chain of loops) of
 * TextBuffer.cpp; the buffer's methods are proved against them.
 */
module Motion {
  import opened Lines

  /**
   * Where move_to_row_start leaves a cursor at p: the scan back stops on a
   * newline or at the buffer start, and a newline there is stepped over.
   */
  ghost function RowStartTarget(s: seq<char>, p: nat): (r: nat)
    requires p < |s|
    ensures r <= |s|
    ensures s[p] != '\n' ==> r == p - ColumnAt(s, p)
    ensures s[p] == '\n' ==> r == p + 1
  {
    BackStopPassesNoNewline(s, p);
    ColumnAtNoNewline(s, p);
    var q := BackStop(s, p);
    if s[q] == '\n' then q + 1 else q
  }

  /** move_to_row_start ends at a line start; off a newline it is the start of p's own line. */
  lemma RowStartTargetLine(s: seq<char>, p: nat)
    requires p < |s|
    ensures ColumnAt(s, RowStartTarget(s, p)) == 0
    ensures s[p] != '\n' ==> NewlinesBefore(s, RowStartTarget(s, p)) == NewlinesBefore(s, p)
    ensures s[p] == '\n' ==> NewlinesBefore(s, RowStartTarget(s, p)) == NewlinesBefore(s, p) + 1
  {
    if s[p] == '\n' {
      RowStartOnNewline(s, p);
    } else {
      RowStartOffNewline(s, p);
    }
  }

  /** On a newline, move_to_row_start steps over it to the start of the next line. */
  lemma RowStartOnNewline(s: seq<char>, p: nat)
    requires p < |s| && s[p] == '\n'
    ensures ColumnAt(s, RowStartTarget(s, p)) == 0
    ensures NewlinesBefore(s, RowStartTarget(s, p)) == NewlinesBefore(s, p) + 1
  {
    PastNewline(s, p);
  }

  /** Off a newline, move_to_row_start goes to the start of p's own line. */
  lemma RowStartOffNewline(s: seq<char>, p: nat)
    requires p < |s| && s[p] != '\n'
    ensures ColumnAt(s, RowStartTarget(s, p)) == 0
    ensures NewlinesBefore(s, RowStartTarget(s, p)) == NewlinesBefore(s, p)
  {
    LineStartOf(s, p);
  }

  /**
   * The signed distance move_to_column(t) moves a cursor at p whose column
   * counter reads col: left while the character at the cursor is not a
   * newline, right while it is not a newline and not the end, and never by
   * more than |t - col|.
   */
  ghost function ColumnShift(s: seq<char>, p: nat, col: int, t: int): (d: int)
    requires p <= |s|
    requires t < col ==> p == 0 || p < |s|
    ensures 0 <= p + d <= |s|
    ensures t < col ==> t <= col + d <= col
    ensures t > col ==> col <= col + d <= t
    ensures t == col ==> d == 0
  {
    if t < col then -Min(col - t, p - BackStop(s, p))
    else if t > col then Min(t - col, LineEnd(s, p) - p)
    else 0
  }

  /** A second move_to_column with the same target does not move. */
  lemma ColumnShiftIdempotent(s: seq<char>, p: nat, col: int, t: int)
    requires p <= |s|
    requires t < col ==> p == 0 || p < |s|
    ensures var d := ColumnShift(s, p, col, t);
      (t < col + d ==> p + d == 0 || p + d < |s|) &&
      ColumnShift(s, p + d, col + d, t) == 0
  {
    var d := ColumnShift(s, p, col, t);
    if t < col && t < col + d {
      assert p + d == BackStop(s, p);
    } else if t > col && t > col + d {
      assert p + d == LineEnd(s, p);
    }
  }

  /**
   * From a consistent column and a target that is not negative,
   * move_to_column stays in the line: the column counter stays exact and no
   * newline is crossed.
   */
  lemma ColumnShiftInLine(s: seq<char>, p: nat, t: int, q: nat)
    requires p <= |s| && t >= 0
    requires t < ColumnAt(s, p) ==> p < |s|
    requires q == p + ColumnShift(s, p, ColumnAt(s, p), t)
    ensures ColumnAt(s, q) == ColumnAt(s, p) + (q - p)
    ensures NewlinesBefore(s, q) == NewlinesBefore(s, p)
  {
    ColumnAtWithinLine(s, p, q);
  }

  /** Moving right, move_to_column stops at the target or at the line end, whichever is first. */
  lemma ColumnShiftClampsRight(s: seq<char>, p: nat, t: int)
    requires p <= |s| && t >= ColumnAt(s, p)
    ensures var c := ColumnAt(s, p);
      c + ColumnShift(s, p, c, t) == Min(t, c + (LineEnd(s, p) - p))
  {
  }

  /** Moving left from a consistent column off a newline, move_to_column reaches the target. */
  lemma ColumnShiftReachesLeft(s: seq<char>, p: nat, t: int)
    requires p < |s| && 0 <= t < ColumnAt(s, p) && s[p] != '\n'
    ensures var c := ColumnAt(s, p);
      c + ColumnShift(s, p, c, t) == t
  {
    var c := ColumnAt(s, p);
    var q := BackStop(s, p);
    if q > 0 {
      ColumnAtNoNewline(s, p);
      assert s[q] == '\n';  // so q is before the start p - c of the line
    }
  }

  /** A cursor on a newline does not move left, whatever the target. */
  lemma ColumnShiftStuckOnNewline(s: seq<char>, p: nat, col: int, t: int)
    requires p < |s| && s[p] == '\n' && t < col
    ensures ColumnShift(s, p, col, t) == 0
  {
  }

  /**
   * Where a successful down() leaves a cursor at p whose column counter
   * reads col: past the newline ending p's line, then right by col
   * characters at most, stopping at the end of that next line.
   */
  ghost function DownTarget(s: seq<char>, p: nat, col: int): (r: nat)
    requires p <= |s| && LineEnd(s, p) < |s|
    ensures LineEnd(s, p) < r <= LineEnd(s, LineEnd(s, p) + 1)
    ensures col >= 0 ==> r - (LineEnd(s, p) + 1) <= col
  {
    var n := LineEnd(s, p) + 1;
    n + (if col <= 0 then 0 else Min(col, LineEnd(s, n) - n))
  }

  /** down() lands one line below p, at the column equal to the steps it took. */
  lemma DownTargetLine(s: seq<char>, p: nat, col: int)
    requires p <= |s| && LineEnd(s, p) < |s|
    ensures var n := LineEnd(s, p) + 1; var r := DownTarget(s, p, col);
      ColumnAt(s, r) == r - n && NewlinesBefore(s, r) == NewlinesBefore(s, p) + 1
  {
    var e := LineEnd(s, p);
    var n := e + 1;
    var r := DownTarget(s, p, col);
    LineEndColumn(s, p);
    PastNewline(s, e);
    ColumnAtAdvance(s, n, r - n);
  }

  /** The column down() lands on is the old column, clamped to the next line's length. */
  lemma DownTargetColumn(s: seq<char>, p: nat, col: int)
    requires p <= |s| && LineEnd(s, p) < |s| && col >= 0
    ensures var n := LineEnd(s, p) + 1;
      ColumnAt(s, DownTarget(s, p, col)) == Min(col, LineEnd(s, n) - n)
  {
    DownTargetLine(s, p, col);
  }

  /**
   * Where up() as written starts its final walk right from a cursor at p:
   * it walks to the end e of p's line, back to the start of that SAME line,
   * and over the newline it finds there when the line is empty.
   */
  ghost function UpStart(s: seq<char>, p: nat): (r: nat)
    requires p <= |s| && 0 < LineEnd(s, p) < |s|
    ensures r <= LineEnd(s, p) + 1
  {
    var e := LineEnd(s, p);
    var ls := e - ColumnAt(s, e);
    if ls != 0 && ls == e then e + 1 else ls
  }

  /**
   * The start of the walk right: from the end e of p's line, up() walks back
   * to the line start ls and steps over the character there when it is a
   * newline, which happens exactly when the line is empty.
   */
  lemma UpStartIs(s: seq<char>, p: nat, ls: nat)
    requires p <= |s| && 0 < LineEnd(s, p) < |s|
    requires ls == LineEnd(s, p) - ColumnAt(s, LineEnd(s, p))
    ensures UpStart(s, p) == if ls != 0 && s[ls] == '\n' then ls + 1 else ls
  {
    ColumnAtNoNewline(s, LineEnd(s, p));
  }

  /**
   * Where up() as written leaves a cursor at p when it returns true: right
   * from UpStart by the smaller of the two distances walked (p to e, and the
   * length of p's line), clamped at the end of the line it is on.
   */
  ghost function UpTarget(s: seq<char>, p: nat): (r: nat)
    requires p <= |s| && 0 < LineEnd(s, p) < |s|
    ensures UpStart(s, p) <= r <= |s|
  {
    var e := LineEnd(s, p);
    var start := UpStart(s, p);
    start + Min(Min(e - p, ColumnAt(s, e)), LineEnd(s, start) - start)
  }

  /**
   * up() as written never reaches the previous line: it ends on p's own
   * line, or on the next one when p's line is empty; the column it reports
   * (the steps taken from UpStart) is the column it ends at.
   */
  lemma UpTargetLine(s: seq<char>, p: nat)
    requires p <= |s| && 0 < LineEnd(s, p) < |s|
    ensures ColumnAt(s, UpTarget(s, p)) == UpTarget(s, p) - UpStart(s, p)
    ensures ColumnAt(s, LineEnd(s, p)) > 0 ==>
      NewlinesBefore(s, UpTarget(s, p)) == NewlinesBefore(s, p)
    ensures ColumnAt(s, LineEnd(s, p)) == 0 ==>
      NewlinesBefore(s, UpTarget(s, p)) == NewlinesBefore(s, p) + 1
  {
    if ColumnAt(s, LineEnd(s, p)) == 0 {
      UpTargetEmptyLine(s, p);
    } else {
      UpTargetOwnLine(s, p);
    }
  }

  /** On an empty line, up() as written ends at the start of the next line. */
  lemma UpTargetEmptyLine(s: seq<char>, p: nat)
    requires p <= |s| && 0 < LineEnd(s, p) < |s| && ColumnAt(s, LineEnd(s, p)) == 0
    ensures UpTarget(s, p) == LineEnd(s, p) + 1 == UpStart(s, p)
    ensures ColumnAt(s, UpTarget(s, p)) == 0
    ensures NewlinesBefore(s, UpTarget(s, p)) == NewlinesBefore(s, p) + 1
  {
    var e := LineEnd(s, p);
    LineEndColumn(s, p);
    assert UpStart(s, p) == e + 1;
    PastNewline(s, e);
  }

  /** On a line that is not empty, up() as written ends on that same line. */
  lemma UpTargetOwnLine(s: seq<char>, p: nat)
    requires p <= |s| && 0 < LineEnd(s, p) < |s| && ColumnAt(s, LineEnd(s, p)) > 0
    ensures UpStart(s, p) == LineEnd(s, p) - ColumnAt(s, LineEnd(s, p))
    ensures ColumnAt(s, UpTarget(s, p)) == UpTarget(s, p) - UpStart(s, p)
    ensures NewlinesBefore(s, UpTarget(s, p)) == NewlinesBefore(s, p)
  {
    var e := LineEnd(s, p);
    var ls := e - ColumnAt(s, e);
    LineEndColumn(s, p);
    LineOfEnd(s, e);
    assert UpStart(s, p) == ls;
    var r := UpTarget(s, p);
    assert ls <= r <= e;
    ColumnAtWithinLine(s, e, r);
  }

  /** An instance: in "ab\ncd\n" up() from index 4 (on 'd') comes back to index 4. */
  lemma UpTargetStaysPut()
    ensures var s := "ab\ncd\n"; LineEnd(s, 4) == 5 && UpTarget(s, 4) == 4
  {
    var s := "ab\ncd\n";
    assert LineEnd(s, 5) == 5;
    assert LineEnd(s, 4) == 5;
    assert ColumnAt(s, 3) == 0;
    assert ColumnAt(s, 5) == 2;
    assert LineEnd(s, 3) == 5;
  }

  /**
   * Where up() as intended leaves a cursor at p that is not on the first
   * line: at the start of the previous line, then right by col characters
   * at most, stopping at that line's end.
   */
  ghost function IntendedUpTarget(s: seq<char>, p: nat, col: int): (r: nat)
    requires p <= |s| && ColumnAt(s, p) < p
    ensures r < p - ColumnAt(s, p)
  {
    var prevEnd := p - ColumnAt(s, p) - 1;
    var prevStart := prevEnd - ColumnAt(s, prevEnd);
    prevStart + (if col <= 0 then 0 else Min(col, prevEnd - prevStart))
  }

  /** The intended up() lands one line above p, at the column equal to the steps it took. */
  lemma IntendedUpTargetLine(s: seq<char>, p: nat, col: int)
    requires p <= |s| && ColumnAt(s, p) < p
    ensures var prevEnd := p - ColumnAt(s, p) - 1;
      var prevStart := prevEnd - ColumnAt(s, prevEnd);
      var r := IntendedUpTarget(s, p, col);
      ColumnAt(s, r) == r - prevStart && NewlinesBefore(s, r) + 1 == NewlinesBefore(s, p)
  {
    var c := ColumnAt(s, p);
    var prevEnd := p - c - 1;
    var prevStart := prevEnd - ColumnAt(s, prevEnd);
    var r := IntendedUpTarget(s, p, col);
    ColumnAtRetreat(s, p, c);
    PastNewline(s, prevEnd);
    ColumnAtRetreat(s, prevEnd, ColumnAt(s, prevEnd));
    ColumnAtRetreat(s, prevEnd, prevEnd - r);
  }

  /**
   * Sticky column, upwards then down: when the previous line is at least as
   * long as p's column, the intended up() followed by down() returns to p.
   */
  lemma IntendedUpThenDown(s: seq<char>, p: nat)
    requires p <= |s| && ColumnAt(s, p) < p
    requires ColumnAt(s, p - ColumnAt(s, p) - 1) >= ColumnAt(s, p)
    ensures var c := ColumnAt(s, p); var u := IntendedUpTarget(s, p, c);
      LineEnd(s, u) < |s| && DownTarget(s, u, c) == p
  {
    var c := ColumnAt(s, p);
    var prevEnd := p - c - 1;
    var prevStart := prevEnd - ColumnAt(s, prevEnd);
    var u := IntendedUpTarget(s, p, c);
    assert u == prevStart + c;
    ColumnAtRetreat(s, prevEnd, prevEnd - u);
    assert LineEnd(s, u) == prevEnd by {
      ColumnAtNoNewline(s, prevEnd);
      LineEndOf(s, u, prevEnd);
    }
    ColumnAtRetreat(s, p, c);
    ColumnAtNoNewline(s, p);
    LineEndNoNewline(s, p);
    LineEndOf(s, p - c, LineEnd(s, p));
  }

  /**
   * Sticky column, downwards then up: when the next line is at least as long
   * as p's column, down() followed by the intended up() returns to p.
   */
  lemma DownThenIntendedUp(s: seq<char>, p: nat)
    requires p <= |s| && LineEnd(s, p) < |s|
    requires LineEnd(s, LineEnd(s, p) + 1) - (LineEnd(s, p) + 1) >= ColumnAt(s, p)
    ensures var c := ColumnAt(s, p); var d := DownTarget(s, p, c);
      ColumnAt(s, d) < d && IntendedUpTarget(s, d, c) == p
  {
    var c := ColumnAt(s, p);
    var e := LineEnd(s, p);
    var d := DownTarget(s, p, c);
    DownTargetLine(s, p, c);
    assert d == e + 1 + c;
    assert d - ColumnAt(s, d) - 1 == e;
    LineEndColumn(s, p);
  }
}

/**
 * The text buffer of TextBuffer.cpp: a character sequence with one cursor
 * and three counters (row, column, index) that the operations update step
 * by step.
 *
 * The list of characters is `content`; the cursor iterator is `pos`, the
 * number of characters before it, so `pos == |content|` is `data.end()` and
 * `content[pos]` is `*cursor`. The counters are kept as the source keeps
 * them, which is not always in agreement with the cursor: `Synced()` says
 * that `index` and `column` agree with it, and `RowOffset()` is how far
 * `row` is from the 0-based line of the cursor. Each method states which of
 * the two it preserves.
 */
module TextBuffers {
  import opened Lines
  import opened Motion
  import opened Scans

  class TextBuffer {
    var content: seq<char>
    var pos: nat
    var row: int
    var column: int
    var index: int

    ghost predicate Valid()
      reads this
    {
      pos <= |content|
    }

    /** The index and column counters agree with the cursor. */
    ghost predicate Synced()
      reads this
      requires Valid()
    {
      index == pos && column == ColumnAt(content, pos)
    }

    /** How far the row counter is from the 0-based line of the cursor. */
    ghost function RowOffset(): int
      reads this
      requires Valid()
    {
      row - NewlinesBefore(content, pos)
    }

    /** An empty buffer; the row counter starts at 1, one above the cursor's 0-based line. */
    constructor ()
      ensures Valid() && content == [] && pos == 0
      ensures row == 1 && column == 0 && index == 0
      ensures Synced() && RowOffset() == 1
    {
      content := [];
      pos := 0;
      row := 1;
      column := 0;
      index := 0;
    }

    /** compute_column: scans back from the cursor to the previous newline. */
    method ComputeColumn() returns (col: int)
      requires Valid()
      ensures col == ColumnAt(content, pos)
      ensures 0 <= col <= pos && (pos == 0 ==> col == 0)
    {
      if pos == 0 {
        return 0;
      }
      var it := pos;
      col := 0;
      while it != 0
        invariant 0 <= it <= pos
        invariant col == pos - it
        invariant forall k :: it <= k < pos ==> content[k] != '\n'
      {
        it := it - 1;
        if content[it] == '\n' {
          break;
        }
        col := col + 1;
      }
      ColumnAtUnique(content, pos, col);
    }

    /** forward: one step right; the row is not updated, even over a newline. */
    method Forward() returns (moved: bool)
      requires Valid()
      modifies this
      ensures Valid() && content == old(content) && row == old(row)
      ensures moved <==> !old(IsAtEnd())
      ensures pos == old(pos) + (if moved then 1 else 0)
      ensures index == old(index) + (if moved then 1 else 0)
      ensures column == old(column) + (if moved then 1 else 0)
      ensures moved && content[old(pos)] != '\n' ==>
        (old(Synced()) ==> Synced()) && RowOffset() == old(RowOffset())
      ensures moved && content[old(pos)] == '\n' ==>
        (old(Synced()) ==> !Synced()) && RowOffset() == old(RowOffset()) - 1
    {
      if pos != |content| {
        NewlinesStep(content, pos);
        pos := pos + 1;
        column := column + 1;
        index := index + 1;
        return true;
      } else {
        return false;
      }
    }

    /**
     * forward, as intended: one step right, counting the newline it steps
     * over as insert does, so index, column and row stay in step with the
     * cursor. Corrects Forward.
     */
    method ForwardIntended() returns (moved: bool)
      requires Valid()
      modifies this
      ensures Valid() && content == old(content)
      ensures moved <==> !old(IsAtEnd())
      ensures pos == old(pos) + (if moved then 1 else 0) && index == old(index) + (if moved then 1 else 0)
      ensures moved && content[old(pos)] == '\n' ==> row == old(row) + 1 && column == 0
      ensures moved && content[old(pos)] != '\n' ==> row == old(row) && column == old(column) + 1
      ensures !moved ==> row == old(row) && column == old(column)
      ensures old(Synced()) ==> Synced()
      ensures RowOffset() == old(RowOffset())
    {
      if pos == |content| {
        return false;
      }
      NewlinesStep(content, pos);
      if content[pos] == '\n' {
        row, column := row + 1, 0;
      } else {
        column := column + 1;
      }
      pos, index := pos + 1, index + 1;
      return true;
    }

    /** backward: one step left; over a newline the row drops and the column is recomputed. */
    method Backward() returns (moved: bool)
      requires Valid()
      modifies this
      ensures Valid() && content == old(content)
      ensures moved <==> old(pos) > 0
      ensures !moved ==> pos == old(pos) && row == old(row) && column == old(column) && index == old(index)
      ensures moved ==> pos == old(pos) - 1 && index == old(index) - 1
      ensures moved && content[pos] == '\n' ==> row == old(row) - 1 && column == ColumnAt(content, pos)
      ensures moved && content[pos] != '\n' ==> row == old(row) && column == old(column) - 1
      ensures old(Synced()) ==> Synced()
      ensures RowOffset() == old(RowOffset())
    {
      if pos == 0 {
        return false;
      }
      pos := pos - 1;
      index := index - 1;
      NewlinesStep(content, pos);
      if content[pos] == '\n' {
        row := row - 1;
        column := ComputeColumn();
      } else {
        column := column - 1;
      }
      return true;
    }

    /** insert: c goes in before the cursor, which keeps pointing at the same character. */
    method Insert(c: char)
      requires Valid()
      modifies this
      ensures Valid()
      ensures content == old(content[..pos]) + [c] + old(content[pos..])
      ensures |content| == |old(content)| + 1
      ensures pos == old(pos) + 1
      ensures old(IsAtEnd()) <==> IsAtEnd()
      ensures !IsAtEnd() ==> content[pos] == old(content[pos])
      ensures index == old(index) + 1
      ensures c == '\n' ==> row == old(row) + 1 && column == 0
      ensures c != '\n' ==> row == old(row) && column == old(column) + 1
      ensures old(Synced()) ==> Synced()
      ensures RowOffset() == old(RowOffset())
    {
      ghost var before := content;
      if pos != |content| {
        content := content[..pos] + [c] + content[pos..];
      } else {
        content := content + [c];
      }
      assert content == before[..pos] + [c] + before[pos..];
      assert content[..pos] == before[..pos];
      ColumnAtPrefix(before, content, pos);
      NewlinesStep(content, pos);
      pos := pos + 1;

      if c == '\n' {
        row := row + 1;
        column := 0;
      } else {
        column := column + 1;
      }
      index := index + 1;
    }

    /**
     * remove: erases the character at the cursor, which then points at the
     * next one. The counters move although the cursor does not.
     */
    method Remove() returns (removed: bool)
      requires Valid()
      modifies this
      ensures Valid() && pos == old(pos)
      ensures removed <==> !old(IsAtEnd())
      ensures !removed ==> content == old(content) && row == old(row) && column == old(column) && index == old(index)
      ensures removed ==> content == old(content[..pos]) + old(content[pos + 1..])
      ensures removed ==> |content| == |old(content)| - 1 && index == old(index) - 1
      ensures removed && old(content[pos]) == '\n' ==> row == old(row) - 1 && column == ColumnAt(content, pos)
      ensures removed && old(content[pos]) != '\n' ==> row == old(row) && column == old(column) - 1
      ensures content[..pos] == old(content[..pos])
      ensures ColumnAt(content, pos) == old(ColumnAt(content, pos))
      ensures NewlinesBefore(content, pos) == old(NewlinesBefore(content, pos))
      ensures removed && old(Synced()) ==> !Synced()
      ensures RowOffset() == old(RowOffset()) - (if removed && old(content[pos]) == '\n' then 1 else 0)
    {
      if pos == |content| {
        return false;
      }
      ghost var before := content;
      var removedChar := content[pos];
      content := content[..pos] + content[pos + 1..];
      assert content[..pos] == before[..pos];
      ColumnAtPrefix(before, content, pos);

      if removedChar == '\n' {
        row := row - 1;
        column := ComputeColumn();
      } else {
        column := column - 1;
      }
      index := index - 1;
      return true;
    }

    /**
     * move_to_row_start: back to the start of the line. It reads the
     * character at the cursor, so the cursor must not be at the end; a
     * cursor on a newline steps forward over it instead.
     */
    method MoveToRowStart()
      requires Valid() && !IsAtEnd()
      modifies this
      ensures Valid() && content == old(content) && row == old(row)
      ensures pos == RowStartTarget(content, old(pos))
      ensures index == old(index) + (pos - old(pos))
      ensures column == 0 == ColumnAt(content, pos)
      ensures old(Synced()) ==> Synced()
      ensures old(content[pos]) != '\n' ==> RowOffset() == old(RowOffset())
      ensures old(content[pos]) == '\n' ==> RowOffset() == old(RowOffset()) - 1
    {
      var s, p0 := content, pos;
      var q := ScanBack(s, p0);
      if s[q] == '\n' {
        q := q + 1;
      }
      RowStartTargetLine(s, p0);
      index, column, pos := index + q - p0, 0, q;
    }

    /** move_to_row_end: right up to the first newline at or after the cursor, or the end. */
    method MoveToRowEnd()
      requires Valid()
      modifies this
      ensures Valid() && content == old(content) && row == old(row)
      ensures pos == LineEnd(content, old(pos))
      ensures LineEnd(content, pos) == pos
      ensures index == old(index) + (pos - old(pos))
      ensures column == old(column) + (pos - old(pos))
      ensures old(Synced()) ==> Synced()
      ensures RowOffset() == old(RowOffset())
    {
      var s, p0 := content, pos;
      var q := ScanToLineEnd(s, p0);
      LineEndColumn(s, p0);
      index, column, pos := index + q - p0, column + q - p0, q;
    }

    /**
     * move_to_column: towards column newColumn, one character at a time,
     * stopping at a newline under the cursor or at a buffer boundary. Moving
     * left reads the character at the cursor, so then the cursor must not be
     * at the end unless it is also at the start.
     */
    method MoveToColumn(newColumn: int)
      requires Valid()
      requires newColumn < column ==> pos == 0 || !IsAtEnd()
      modifies this
      ensures Valid() && content == old(content) && row == old(row)
      ensures pos == old(pos) + ColumnShift(content, old(pos), old(column), newColumn)
      ensures index == old(index) + (pos - old(pos))
      ensures column == old(column) + (pos - old(pos))
      ensures old(Synced()) && newColumn >= 0 ==> Synced() && RowOffset() == old(RowOffset())
    {
      var q := WalkToColumn(content, pos, column, newColumn);
      index, column, pos := index + q - pos, column + q - pos, q;
    }

    /**
     * up, as written: after the row-0 guard it walks to the end of the line,
     * steps over the newline and back onto it, walks back to the start of
     * the same line and then right again. The column ends right, the row
     * counter drops by one, but the cursor never reaches the previous line.
     * The newline test after the first walk reads the character at the
     * cursor, so that walk must not end at the end of a non-empty buffer.
     */
    method Up() returns (moved: bool)
      requires Valid()
      requires (row != 0 && LineEnd(content, pos) == |content|) ==> |content| == 0
      modifies this
      ensures Valid() && content == old(content)
      ensures moved <==> old(row) != 0 && LineEnd(content, old(pos)) != 0
      ensures old(row) == 0 ==>
        pos == old(pos) && row == old(row) && column == old(column) && index == old(index)
      ensures old(row) != 0 && !moved ==>
        pos == old(pos) && row == old(row) && column == 0 && index == old(index)
      ensures moved ==> pos == UpTarget(content, old(pos)) && row == old(row) - 1
      ensures moved ==> index == old(index) + (pos - old(pos)) && column == ColumnAt(content, pos)
      ensures moved && ColumnAt(content, LineEnd(content, old(pos))) > 0 ==>
        RowOffset() == old(RowOffset()) - 1
      ensures moved && ColumnAt(content, LineEnd(content, old(pos))) == 0 ==>
        RowOffset() == old(RowOffset()) - 2
    {
      if row == 0 {
        return false;
      }
      var q, steps;
      moved, q, steps := UpWalk(content, pos);
      if !moved {
        column := 0;
        return false;
      }
      index, column, row, pos := index + q - pos, steps, row - 1, q;
    }

    /**
     * up, as intended: the cursor moves to the previous line, at the old
     * column clamped to that line's length, and nothing changes when it
     * cannot move. Corrects Up (see Motion.UpTargetLine).
     */
    method UpIntended() returns (moved: bool)
      requires Valid()
      modifies this
      ensures Valid() && content == old(content)
      ensures moved <==> old(row) != 0 && ColumnAt(content, old(pos)) < old(pos)
      ensures !moved ==> pos == old(pos) && row == old(row) && column == old(column) && index == old(index)
      ensures moved ==> pos == IntendedUpTarget(content, old(pos), old(column)) && row == old(row) - 1
      ensures moved ==> index == old(index) + (pos - old(pos)) && column == ColumnAt(content, pos)
      ensures moved ==> RowOffset() == old(RowOffset()) && (old(Synced()) ==> Synced())
    {
      if row == 0 {
        return false;
      }
      var q, steps;
      moved, q, steps := IntendedUpWalk(content, pos, column);
      if moved {
        index, column, row, pos := index + q - pos, steps, row - 1, q;
      }
    }

    /**
     * down: to the end of the line; at the buffer end it fails there (having
     * moved); otherwise over the newline and right by the old column at most.
     */
    method Down() returns (moved: bool)
      requires Valid()
      modifies this
      ensures Valid() && content == old(content)
      ensures moved <==> LineEnd(content, old(pos)) < |content|
      ensures old(IsAtEnd()) ==>
        pos == old(pos) && row == old(row) && column == old(column) && index == old(index)
      ensures !moved ==> pos == |content| && row == old(row)
      ensures !moved ==> index == old(index) + (pos - old(pos)) && column == old(column) + (pos - old(pos))
      ensures moved ==> pos == DownTarget(content, old(pos), old(column)) && row == old(row) + 1
      ensures moved ==> index == old(index) + (pos - old(pos)) && column == ColumnAt(content, pos)
      ensures RowOffset() == old(RowOffset())
      ensures moved && old(Synced()) ==> Synced()
    {
      if IsAtEnd() {
        return false;
      }
      var q, steps;
      moved, q, steps := DownWalk(content, pos, column);
      if moved {
        row, column := row + 1, steps;
      } else {
        column := column + q - pos;
      }
      index, pos := index + q - pos, q;
    }

    /** is_at_end: no character at the cursor. */
    predicate IsAtEnd()
      reads this
      ensures IsAtEnd() <==> pos == |Stringify()|
    {
      pos == |content|
    }

    /** data_at_cursor: the character after the cursor; reading it at the end is undefined. */
    function DataAtCursor(): (ch: char)
      reads this
      requires Valid() && !IsAtEnd()
      ensures ch == Stringify()[pos]
      ensures Synced() ==> ch == Stringify()[GetIndex()]
    {
      content[pos]
    }

    /** get_row: the row counter; it is the 0-based line of the cursor plus RowOffset(). */
    function GetRow(): (r: int)
      reads this
      requires Valid()
      ensures r == NewlinesBefore(Stringify(), pos) + RowOffset()
    {
      row
    }

    /** get_column: the column counter; when synced, the cursor's column. */
    function GetColumn(): (c: int)
      reads this
      requires Valid()
      ensures Synced() ==> c == ColumnAt(Stringify(), pos)
    {
      column
    }

    /** get_index: the index counter; when synced, the number of characters before the cursor. */
    function GetIndex(): (i: int)
      reads this
      requires Valid()
      ensures Synced() ==> i == pos && 0 <= i <= Size()
    {
      index
    }

    /** size: the number of characters. */
    function Size(): (n: int)
      reads this
      ensures n == |Stringify()|
    {
      |content|
    }

    /** stringify: all the characters, in order. */
    function Stringify(): (s: seq<char>)
      reads this
      ensures s == content
    {
      content
    }
  }
}

/**
 * Sequences of text buffer operations, as a client of TextBuffer.cpp would
 * issue them, and what they leave behind.
 */
module Scenarios {
  import opened Lines
  import opened Motion
  import opened TextBuffers

  /** A new buffer is empty: forward, backward and remove all fail on it. */
  method EmptyBuffer() returns (forward: bool, backward: bool, removed: bool, size: int, atEnd: bool)
    ensures !forward && !backward && !removed
    ensures size == 0 && atEnd
  {
    var b := new TextBuffer();
    forward := b.Forward();
    backward := b.Backward();
    removed := b.Remove();
    size := b.Size();
    atEnd := b.IsAtEnd();
  }

  /** A new buffer into which text has been typed: synced, at the end, row counter one ahead. */
  method Typed(text: seq<char>) returns (b: TextBuffer)
    ensures fresh(b) && b.Valid() && b.content == text && b.pos == |text|
    ensures b.Synced() && b.RowOffset() == 1
  {
    b := new TextBuffer();
    var i := 0;
    while i < |text|
      invariant 0 <= i <= |text|
      invariant b.Valid() && b.content == text[..i] && b.pos == i
      invariant b.Synced() && b.RowOffset() == 1
    {
      b.Insert(text[i]);
      assert text[..i + 1] == text[..i] + [text[i]];
      i := i + 1;
    }
    assert text[..|text|] == text;
  }

  /**
   * Typing text into a new buffer: the buffer holds text, the cursor is at
   * its end, index and column agree with the cursor, and the row counter is
   * one more than the number of newlines typed, since it starts at 1.
   */
  method Type(text: seq<char>) returns (contents: seq<char>, row: int, column: int, index: int)
    ensures contents == text
    ensures index == |text| && column == ColumnAt(text, |text|)
    ensures row == NewlinesBefore(text, |text|) + 1
  {
    var b := Typed(text);
    contents := b.Stringify();
    row := b.GetRow();
    column := b.GetColumn();
    index := b.GetIndex();
  }

  /**
   * forward then backward over a character that is not a newline restores
   * the cursor and all three counters. Over a newline the row counter ends
   * one lower, since forward does not count the newline and backward does.
   */
  method ForwardThenBackward(b: TextBuffer)
    requires b.Valid() && !b.IsAtEnd()
    modifies b
    ensures b.content == old(b.content) && b.pos == old(b.pos) && b.index == old(b.index)
    ensures old(b.content[b.pos]) != '\n' ==> b.row == old(b.row) && b.column == old(b.column)
    ensures old(b.content[b.pos]) == '\n' ==> b.row == old(b.row) - 1
  {
    var f := b.Forward();
    var k := b.Backward();
  }

  /**
   * With the corrected forward, forward then backward from a synced cursor
   * restores the cursor and all three counters, newline or not.
   */
  method ForwardIntendedThenBackward(b: TextBuffer)
    requires b.Valid() && !b.IsAtEnd() && b.Synced()
    modifies b
    ensures b.content == old(b.content) && b.pos == old(b.pos) && b.index == old(b.index)
    ensures b.row == old(b.row) && b.column == old(b.column)
  {
    var f := b.ForwardIntended();
    var k := b.Backward();
  }

  /**
   * backward then forward from a cursor that is not at the start restores
   * the cursor and index, and also row and column when the character
   * crossed is not a newline.
   */
  method BackwardThenForward(b: TextBuffer)
    requires b.Valid() && b.pos > 0
    modifies b
    ensures b.content == old(b.content) && b.pos == old(b.pos) && b.index == old(b.index)
    ensures b.content[b.pos - 1] != '\n' ==> b.row == old(b.row) && b.column == old(b.column)
    ensures b.content[b.pos - 1] == '\n' ==> b.row == old(b.row) - 1
  {
    var k := b.Backward();
    var f := b.Forward();
  }

  /**
   * insert(c), backward, remove: the content and the cursor are as before.
   * The index counter ends one lower, since remove decrements it although
   * the cursor does not move.
   */
  method InsertBackwardRemove(b: TextBuffer, c: char)
    requires b.Valid()
    modifies b
    ensures b.content == old(b.content) && b.pos == old(b.pos)
    ensures b.index == old(b.index) - 1
  {
    b.Insert(c);
    var k := b.Backward();
    var r := b.Remove();
    assert b.content == old(b.content[..b.pos]) + old(b.content[b.pos..]);
  }

  /** move_to_row_end twice: the second call changes nothing. */
  method RowEndTwice(b: TextBuffer)
    requires b.Valid()
    modifies b
    ensures b.content == old(b.content) && b.pos == LineEnd(old(b.content), old(b.pos))
    ensures b.index == old(b.index) + (b.pos - old(b.pos))
    ensures b.column == old(b.column) + (b.pos - old(b.pos)) && b.row == old(b.row)
  {
    b.MoveToRowEnd();
    b.MoveToRowEnd();
  }

  /** move_to_column(t) twice: the second call changes nothing. */
  method ColumnTwice(b: TextBuffer, t: int)
    requires b.Valid()
    requires t < b.column ==> b.pos == 0 || !b.IsAtEnd()
    modifies b
    ensures b.content == old(b.content) && b.row == old(b.row)
    ensures b.pos == old(b.pos) + ColumnShift(old(b.content), old(b.pos), old(b.column), t)
    ensures b.index == old(b.index) + (b.pos - old(b.pos))
    ensures b.column == old(b.column) + (b.pos - old(b.pos))
  {
    b.MoveToColumn(t);
    ColumnShiftIdempotent(old(b.content), old(b.pos), old(b.column), t);
    b.MoveToColumn(t);
  }

  /**
   * In "ab\ncd\n" with the cursor at the end, the intended up lands at the
   * start of "cd" (index 3, column 0); inserting 'X' there gives "ab\nXcd\n"
   * with index 4 and column 1, and remove then deletes the 'c' at the cursor.
   */
  method UpInsertRemove() returns (afterUp: int, afterInsert: seq<char>, index: int, column: int, afterRemove: seq<char>)
    ensures afterUp == 3
    ensures afterInsert == "ab\nXcd\n" && index == 4 && column == 1
    ensures afterRemove == "ab\nXd\n"
  {
    var b := Typed("ab\ncd\n");
    TwoLines();
    var up := b.UpIntended();
    afterUp := b.GetIndex();
    b.Insert('X');
    afterInsert := b.Stringify();
    index := b.GetIndex();
    column := b.GetColumn();
    var r := b.Remove();
    afterRemove := b.Stringify();
  }

  /** The lines of "ab\ncd\n": where its positions sit. */
  lemma TwoLines()
    ensures var s := "ab\ncd\n";
      ColumnAt(s, 6) == 0 && ColumnAt(s, 5) == 2 && ColumnAt(s, 3) == 0 && ColumnAt(s, 4) == 1
  {
    var s := "ab\ncd\n";
    assert ColumnAt(s, 3) == 0;
    assert ColumnAt(s, 4) == 1;
  }
}

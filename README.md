# TextBuffer in Dafny

A model of the C++ class `TextBuffer` (TextBuffer.cpp). The class is an editable
text buffer: a `std::list<char>` of characters, one cursor iterator into it, and
three counters, `row`, `column` and `index`. It supports:

- insertion before the cursor and deletion at the cursor;
- cursor motion by character, to the start or end of the line, to a column, and
  up or down a line;
- queries for the counters, the character at the cursor, the size and the whole
  text.

The model is imperative, as the source is. The class `TextBuffers.TextBuffer`
has these fields:

- `content: seq<char>`, the list;
- `pos: nat`, the number of characters before the cursor, so `pos == |content|`
  is `data.end()` and `content[pos]` is `*cursor`;
- `row`, `column` and `index`, as plain integers.

Each method updates these fields as the C++ member function does.
Each cursor loop of the source is a method in module `Scans` with a `while`
loop. That method walks a position over the characters and stops where the
source's loop condition fails. The class method adds the distance walked to
its counters, which is what the source's loop does one step at a time.

Files and modules:

- `lines.dfy` (`Lines`): line geometry of a character sequence.
  - `NewlinesBefore(s, p)` is the 0-based line of position `p`.
  - `ColumnAt(s, p)` is its column.
  - `LineEnd(s, p)` is the first newline at or after `p`, or the end.
  - `BackStop(s, p)` is where a leftward scan that tests the character *at*
    the cursor stops.
- `motion.dfy` (`Motion`): closed forms for where each motion leaves the cursor
  (`RowStartTarget`, `ColumnShift`, `DownTarget`, `UpTarget`,
  `IntendedUpTarget`). Lemmas give the line and column each closed form lands on.
- `scans.dfy` (`Scans`): the loops, each proved against those closed forms.
- `text_buffer.dfy` (`TextBuffers`): the class.
- `scenarios.dfy` (`Scenarios`): operation sequences a client would issue,
  including the round trips.

The counters are not always in step with the cursor in the source, so the
model states the agreement per method rather than as a class invariant:

- `Synced()` says `index == pos` and `column == ColumnAt(content, pos)`.
- `RowOffset()` is `row - NewlinesBefore(content, pos)`, how far the row counter
  is from the cursor's 0-based line.

Every method states whether it keeps `Synced()` and how it changes `RowOffset()`.
The counters are meant to agree with the cursor after every operation. The
code does not keep this, and the model follows the code:

- the constructor starts `row` at 1, so a new buffer has `RowOffset() == 1`;
- `forward` over a newline bumps `column` and leaves `row`;
- `remove` changes `index`, `row` and `column`, although the cursor does not move;
- `move_to_row_start` on a newline steps forward over it;
- `up` does not reach the previous line (see Findings);
- `down` on the last line returns false after moving the cursor to the buffer end;
- `move_to_column` to the left does not move a cursor on a '\n' (`Motion.ColumnShiftStuckOnNewline`), so on a line ending in '\n', `move_to_column(0)` after `move_to_row_end` leaves the cursor at the line end.

## Model

| member | source | states |
|---|---|---|
| Lines.NewlinesBefore | TextBuffer.cpp:11 | the 0-based line of a position never exceeds the position |
| Lines.NewlinesBeforeCount | TextBuffer.cpp:11 | the line of position p is the number of '\n' among the first p characters |
| Lines.NewlinesStep | TextBuffer.cpp:93-98 | stepping over one character adds a line exactly when it is '\n' |
| Lines.ColumnAt | TextBuffer.cpp:40-54 | the column of p is at most p, and when it is less than p the character just before the line start is '\n' |
| Lines.ColumnAtNoNewline | TextBuffer.cpp:46-51 | no '\n' lies between the start of p's line and p |
| Lines.ColumnAtUnique | TextBuffer.cpp:40-54 | any count c that meets those properties (no '\n' in the last c characters, and '\n' or the buffer start before them) is the column |
| Lines.ColumnAtPrefix | TextBuffer.cpp:86-101 | column and line of p depend only on the characters before p, so editing at or after p leaves them |
| Lines.LineEnd | TextBuffer.cpp:138-142 | the line end of p lies between p and the buffer end and is the buffer end or a '\n' |
| Lines.LineEndNoNewline | TextBuffer.cpp:138-142 | no '\n' lies between p and its line end |
| Lines.BackStop | TextBuffer.cpp:125-129 | a left scan testing the character at the cursor stops at or before p, at the buffer start or on a '\n' |
| Lines.BackStopPassesNoNewline | TextBuffer.cpp:125-129 | that scan passes no '\n' on its way back |
| Lines.ColumnAtAdvance | TextBuffer.cpp:138-142 | moving right by k within the line adds k to the column and keeps the line |
| Lines.ColumnAtRetreat | TextBuffer.cpp:149-153 | moving left by at most the column subtracts from the column and keeps the line |
| Lines.LineStartOf | TextBuffer.cpp:124-135 | the start of p's line is in column 0 and on p's line |
| Lines.ColumnAtWithinLine | TextBuffer.cpp:145-164 | any position between the start and the end of p's line is on p's line, at p's column plus the signed distance |
| Lines.LineEndColumn | TextBuffer.cpp:137-143 | the line end is on p's line, at p's column plus the distance to it |
| Lines.PastNewline | TextBuffer.cpp:233-237 | stepping over a '\n' lands in column 0 of the next line |
| Lines.LineEndOf | TextBuffer.cpp:138-142 | the first '\n' at or after p, or the end when there is none, is p's line end |
| Lines.LineOfEnd | TextBuffer.cpp:192-200 | the line ending at e starts e - ColumnAt(e) before it, in column 0 on the same line, and ends at e |
| Motion.RowStartTarget | TextBuffer.cpp:124-135 | move_to_row_start goes to the start of the line when the cursor is not on a '\n', and one past the '\n' when it is |
| Motion.RowStartTargetLine | TextBuffer.cpp:124-135 | that target is in column 0, on the cursor's line, or on the next line when the cursor was on a '\n' |
| Motion.RowStartOnNewline | TextBuffer.cpp:124-135 | on a '\n', move_to_row_start ends at column 0 of the next line |
| Motion.RowStartOffNewline | TextBuffer.cpp:124-135 | off a '\n', move_to_row_start ends at column 0 of the cursor's own line |
| Motion.ColumnShift | TextBuffer.cpp:145-164 | move_to_column stays in the buffer and moves the column towards the target, never past it; an equal target does not move |
| Motion.ColumnShiftIdempotent | TextBuffer.cpp:145-164 | a second move_to_column with the same target does not move |
| Motion.ColumnShiftInLine | TextBuffer.cpp:145-164 | from a correct column and a target that is not negative, the column stays correct and no '\n' is crossed |
| Motion.ColumnShiftClampsRight | TextBuffer.cpp:155-160 | moving right ends at the target column or the line end, whichever comes first |
| Motion.ColumnShiftReachesLeft | TextBuffer.cpp:148-153 | moving left off a '\n' from a correct column reaches the target |
| Motion.ColumnShiftStuckOnNewline | TextBuffer.cpp:149 | moving left with the cursor on a '\n' does not move |
| Motion.DownTarget | TextBuffer.cpp:215-246 | a successful down lands after the end of the cursor's line, no further than the next line's end, and at most col characters into it |
| Motion.DownTargetLine | TextBuffer.cpp:233-246 | down lands on the next line, at the column equal to the steps taken |
| Motion.DownTargetColumn | TextBuffer.cpp:240-246 | down's column is the old column clamped to the length of the next line |
| Motion.UpStart | TextBuffer.cpp:172-200 | up's final walk starts no further than one past the end of the cursor's own line |
| Motion.UpStartIs | TextBuffer.cpp:192-200 | up's test for a '\n' at the line start holds exactly when the line is empty |
| Motion.UpTarget | TextBuffer.cpp:166-213 | up as written ends between its last walk's start and the buffer end |
| Motion.UpTargetLine | TextBuffer.cpp:166-213 | up as written ends on the cursor's own line, or on the next line when that line is empty, and its column counter is exact there |
| Motion.UpTargetEmptyLine | TextBuffer.cpp:179-209 | on an empty line up as written ends at the start of the next line |
| Motion.UpTargetOwnLine | TextBuffer.cpp:190-209 | on a line that is not empty up as written ends on that same line |
| Motion.UpTargetStaysPut | TextBuffer.cpp:166-213 | in "ab\ncd\n" from index 4, up as written returns to index 4 |
| Motion.IntendedUpTarget | TextBuffer.cpp:166-213 | the intended up lands before the start of the cursor's line |
| Motion.IntendedUpTargetLine | TextBuffer.cpp:166-213 | the intended up lands on the previous line, at the column equal to the steps taken |
| Motion.IntendedUpThenDown | TextBuffer.cpp:215-246 | the intended up then down returns to the start when the previous line is long enough |
| Motion.DownThenIntendedUp | TextBuffer.cpp:215-246 | down then the intended up returns to the start when the next line is long enough |
| Scans.ScanToLineEnd | TextBuffer.cpp:138-142 | the walk right while the character at the cursor is not '\n' ends at the line end |
| Scans.ScanRight | TextBuffer.cpp:156-160 | the bounded walk right ends after limit steps or at the line end, whichever comes first |
| Scans.ScanBack | TextBuffer.cpp:125-129 | the walk left while the character at the cursor is not '\n' ends at BackStop |
| Scans.ScanLeft | TextBuffer.cpp:149-153 | the bounded walk left ends after limit steps or at BackStop, whichever comes first |
| Scans.ScanLineStart | TextBuffer.cpp:192-196 | the walk left while the character before the cursor is not '\n' ends at the line start |
| Scans.WalkToColumn | TextBuffer.cpp:146-162 | move_to_column's walk ends at ColumnShift, with an exact column and on the same line when started from an exact column |
| Scans.UpWalk | TextBuffer.cpp:170-209 | up's walks fail exactly when the walk to the line end stops at the buffer start (line 186), else end at UpTarget with the steps equal to the column, on the same or the next line |
| Scans.IntendedUpWalk | TextBuffer.cpp:166-213 | the intended walks fail exactly on the first line, else end at IntendedUpTarget, one line up, with the steps equal to the column |
| Scans.DownWalk | TextBuffer.cpp:219-246 | down's walks fail exactly when no '\n' follows, leaving the cursor at the end in its line, else end at DownTarget one line down with the steps equal to the column |
| TextBuffers.TextBuffer.constructor | TextBuffer.cpp:18-20 | a new buffer is empty with the cursor at the end, row 1, column and index 0 |
| TextBuffers.TextBuffer.ComputeColumn | TextBuffer.cpp:40-54 | compute_column changes nothing and returns the cursor's column, 0 at the start and never more than the cursor position |
| TextBuffers.TextBuffer.Forward | TextBuffer.cpp:56-66 | forward fails exactly at the end; it moves the cursor, index and column by one and leaves row, so over a '\n' the counters fall out of step |
| TextBuffers.TextBuffer.ForwardIntended | TextBuffer.cpp:56-66 | the corrected forward moves one step and keeps the counters in step, counting a '\n' as insert does |
| TextBuffers.TextBuffer.Backward | TextBuffer.cpp:68-84 | backward fails exactly at the start; over a '\n' it lowers row and recomputes the column, else lowers column; it keeps the counters in step |
| TextBuffers.TextBuffer.Insert | TextBuffer.cpp:86-101 | insert puts c just before the cursor, the character at the cursor is unchanged, and the counters stay in step |
| TextBuffers.TextBuffer.Remove | TextBuffer.cpp:103-122 | remove fails exactly at the end, else deletes the character at the cursor; the text before is untouched, and the counters change as if the cursor had moved, so the row counter falls one behind when a '\n' is removed |
| TextBuffers.TextBuffer.MoveToRowStart | TextBuffer.cpp:124-135 | move_to_row_start ends at RowStartTarget in column 0, with index in step |
| TextBuffers.TextBuffer.MoveToRowEnd | TextBuffer.cpp:137-143 | move_to_row_end ends at the line end, where a second call does not move; index and column grow by the distance |
| TextBuffers.TextBuffer.MoveToColumn | TextBuffer.cpp:145-164 | move_to_column ends at ColumnShift with index and column moved in step, and keeps the counters in step for a target that is not negative |
| TextBuffers.TextBuffer.Up | TextBuffer.cpp:166-213 | up as written: row 0 changes nothing; when the walk to the line end stops at the buffer start (line 186) it fails with column 0; else it ends at UpTarget, lowers row, and the row counter ends one or two lines too low |
| TextBuffers.TextBuffer.UpIntended | TextBuffer.cpp:166-213 | the corrected up fails without change on row 0 or the first line; else it goes to the previous line at the old column clamped, keeping the counters in step |
| TextBuffers.TextBuffer.Down | TextBuffer.cpp:215-249 | down fails without moving at the end, fails at the end of the buffer when no '\n' follows, else moves to DownTarget one line down, keeping the counters in step |
| TextBuffers.TextBuffer.IsAtEnd | TextBuffer.cpp:251-253 | the cursor is at the end exactly when it is past every character |
| TextBuffers.TextBuffer.DataAtCursor | TextBuffer.cpp:255-257 | the character at the cursor, which is the character at get_index when the counters are in step |
| TextBuffers.TextBuffer.GetRow | TextBuffer.cpp:259-261 | the row counter is the cursor's 0-based line plus RowOffset |
| TextBuffers.TextBuffer.GetColumn | TextBuffer.cpp:263-265 | when in step, the column counter is the cursor's column |
| TextBuffers.TextBuffer.GetIndex | TextBuffer.cpp:267-269 | when in step, the index counter is the cursor position, between 0 and the size |
| TextBuffers.TextBuffer.Size | TextBuffer.cpp:271-273 | the size is the length of the text |
| TextBuffers.TextBuffer.Stringify | TextBuffer.cpp:275-277 | the text is the whole content, in order |
| Scenarios.EmptyBuffer | TextBuffer.cpp:18-122 | on a new buffer forward, backward and remove fail, the size is 0 and the cursor is at the end |
| Scenarios.Typed | TextBuffer.cpp:86-101 | typing text into a new buffer leaves the cursor at its end with the counters in step and the row counter one ahead |
| Scenarios.Type | TextBuffer.cpp:86-101 | after typing text, stringify gives text, index is its length, column its last column, and row one more than its number of '\n' |
| Scenarios.ForwardThenBackward | TextBuffer.cpp:56-84 | forward then backward restores cursor and index; over a character that is not '\n' also row and column, over a '\n' the row ends one lower |
| Scenarios.ForwardIntendedThenBackward | TextBuffer.cpp:56-84 | the corrected forward then backward restores the cursor and all counters |
| Scenarios.BackwardThenForward | TextBuffer.cpp:56-84 | backward then forward restores cursor and index; also row and column when the character crossed is not '\n' |
| Scenarios.InsertBackwardRemove | TextBuffer.cpp:86-122 | insert, backward, remove restores the content and the cursor; the index ends one lower |
| Scenarios.RowEndTwice | TextBuffer.cpp:137-143 | two calls of move_to_row_end leave the state of one |
| Scenarios.ColumnTwice | TextBuffer.cpp:145-164 | two calls of move_to_column with the same target leave the state of one |
| Scenarios.UpInsertRemove | TextBuffer.cpp:86-122 | in "ab\ncd\n" from the end, the intended up lands at index 3; insert('X') gives "ab\nXcd\n" with index 4 and column 1; remove then deletes the 'c' |
| Scenarios.TwoLines | TextBuffer.cpp:40-54 | the columns of positions 3 to 6 of "ab\ncd\n" |

## Left out

- Integer width: `row`, `column` and `index` are unbounded integers, and 32-bit `int` overflow is not modelled. The counters can drift without bound while the content stays small: each forward then backward over a '\n' lowers `row` by one, and each insert, backward, remove lowers `index` by one (Scenarios.ForwardThenBackward, Scenarios.InsertBackwardRemove). After about 2^31 such operations the C++ counters overflow, which is undefined behaviour; the model keeps counting.
- `size()` returns `data.size()` (a `size_t`) as `int`; the model's `Size` does not model that narrowing.
- `std::list` iterator stability and the O(1) cost of insert and erase are not modelled: content is a sequence and the cursor a position.
- `stringify` builds a `std::string`; the model returns the content sequence.
- The `<iostream>` include is unused.
- Undefined behaviour becomes a precondition, since the source has no error path for it. Each case dereferences `data.end()`:
  - `TextBuffers.TextBuffer.MoveToRowStart` requires that the cursor is not at the end (lines 125 and 130);
  - `TextBuffers.TextBuffer.MoveToColumn` requires the same when moving left, unless the cursor is also at the start (line 149);
  - `TextBuffers.TextBuffer.DataAtCursor` requires the same (line 256);
  - `TextBuffers.TextBuffer.Up` requires that the first walk does not end at the end of a non-empty buffer when row is not 0 (line 179).
- Scans.WalkToColumn: the column fact is stated only for a target that is not negative, since a negative target lets a leftward walk go past the line start without the row counter changing.

## Findings

| source | as written | input that shows it | evidently intended | confidence | as-written member | corrected member |
|---|---|---|---|---|---|---|
| TextBuffer.cpp:166-213 | up walks to the end of the cursor's line, back to the start of that same line, and right again; it lowers row but the cursor stays on its own line (or goes to the next one when the line is empty) | "ab\ncd\n" with the cursor at index 4: up returns true with the cursor at index 4 again and row one lower | the cursor moves to the previous line, at the old column clamped to that line's length, and nothing changes when there is no previous line | not executed | Motion.UpTargetStaysPut | TextBuffers.TextBuffer.UpIntended |
| TextBuffer.cpp:56-66 | forward over a '\n' adds one to column and leaves row, while backward over the same '\n' lowers row | "a\nb" with the cursor at index 1: forward then backward returns the cursor to index 1 with row one lower than before | forward over a '\n' adds one to row and sets column to 0, as insert does | not executed | Scenarios.ForwardThenBackward | TextBuffers.TextBuffer.ForwardIntended |

/**
 * Line geometry of a character sequence. A position p in a sequence s is a
 * cursor position: the number of characters before the cursor, so
 * 0 <= p <= |s|, with p == |s| the end of the buffer and s[p] the character
 * "at" the cursor when p < |s|.
 */
module Lines {

  function Min(a: int, b: int): int
  {
    if a <= b then a else b
  }

  /** The number of newlines before position p, that is, the 0-based line of p. */
  ghost function NewlinesBefore(s: seq<char>, p: nat): (n: nat)
    requires p <= |s|
    ensures n <= p
  {
    if p == 0 then 0 else NewlinesBefore(s, p - 1) + (if s[p - 1] == '\n' then 1 else 0)
  }

  /** NewlinesBefore counts the occurrences of '\n' in the prefix of length p. */
  lemma {:induction false} NewlinesBeforeCount(s: seq<char>, p: nat)
    requires p <= |s|
    ensures NewlinesBefore(s, p) == multiset(s[..p])['\n']
  {
    if p > 0 {
      NewlinesBeforeCount(s, p - 1);
      assert s[..p] == s[..p - 1] + [s[p - 1]];
    }
  }

  /** Advancing over one character adds one line exactly when it is a newline. */
  lemma NewlinesStep(s: seq<char>, p: nat)
    requires p < |s|
    ensures NewlinesBefore(s, p + 1) == NewlinesBefore(s, p) + (if s[p] == '\n' then 1 else 0)
  {
  }

  /**
   * The column of position p: the number of characters between the last
   * newline before p (or the start of the buffer) and p.
   */
  ghost function ColumnAt(s: seq<char>, p: nat): (c: nat)
    requires p <= |s|
    ensures c <= p
    ensures c < p ==> s[p - c - 1] == '\n'
  {
    if p == 0 || s[p - 1] == '\n' then 0 else ColumnAt(s, p - 1) + 1
  }

  /** No newline lies between the start of p's line and p. */
  lemma {:induction false} ColumnAtNoNewline(s: seq<char>, p: nat)
    requires p <= |s|
    ensures forall k :: p - ColumnAt(s, p) <= k < p ==> s[k] != '\n'
  {
    if p != 0 && s[p - 1] != '\n' {
      ColumnAtNoNewline(s, p - 1);
    }
  }

  /** The three properties of ColumnAt determine it. */
  lemma ColumnAtUnique(s: seq<char>, p: nat, c: nat)
    requires p <= |s| && c <= p
    requires forall k :: p - c <= k < p ==> s[k] != '\n'
    requires c < p ==> s[p - c - 1] == '\n'
    ensures ColumnAt(s, p) == c
  {
    var r := ColumnAt(s, p);
    ColumnAtNoNewline(s, p);
    if c < p {
      assert s[p - c - 1] == '\n';  // so r <= c
    }
    if r < p {
      assert s[p - r - 1] == '\n';  // so c <= r
    }
  }

  /** The column of p depends only on the characters before p. */
  lemma ColumnAtPrefix(s: seq<char>, t: seq<char>, p: nat)
    requires p <= |s| && p <= |t| && s[..p] == t[..p]
    ensures ColumnAt(s, p) == ColumnAt(t, p)
    ensures NewlinesBefore(s, p) == NewlinesBefore(t, p)
  {
    var c := ColumnAt(s, p);
    ColumnAtNoNewline(s, p);
    forall k | p - c <= k < p
      ensures t[k] != '\n'
    {
      assert t[k] == t[..p][k] == s[..p][k] == s[k];
    }
    if c < p {
      assert t[p - c - 1] == t[..p][p - c - 1] == s[..p][p - c - 1];
    }
    ColumnAtUnique(t, p, c);
    NewlinesBeforeCount(s, p);
    NewlinesBeforeCount(t, p);
  }

  /**
   * The end of the line holding p: the first position at or after p that is
   * the buffer end or holds a newline.
   */
  ghost function LineEnd(s: seq<char>, p: nat): (e: nat)
    requires p <= |s|
    ensures p <= e <= |s|
    ensures e < |s| ==> s[e] == '\n'
    decreases |s| - p
  {
    if p == |s| || s[p] == '\n' then p else LineEnd(s, p + 1)
  }

  /** No newline lies between p and the end of its line. */
  lemma {:induction false} LineEndNoNewline(s: seq<char>, p: nat)
    requires p <= |s|
    ensures forall k :: p <= k < LineEnd(s, p) ==> s[k] != '\n'
    decreases |s| - p
  {
    if p != |s| && s[p] != '\n' {
      LineEndNoNewline(s, p + 1);
    }
  }

  /**
   * The position a leftward scan that tests the character AT the cursor
   * stops at: the last position at or before p that is the buffer start or
   * holds a newline. Taking s[p] needs p < |s| unless p is the start.
   */
  ghost function BackStop(s: seq<char>, p: nat): (q: nat)
    requires p == 0 || p < |s|
    ensures q <= p
    ensures q == 0 || s[q] == '\n'
  {
    if p == 0 || s[p] == '\n' then p else BackStop(s, p - 1)
  }

  /** The scan passes no newline on its way back from p to BackStop(s, p). */
  lemma {:induction false} BackStopPassesNoNewline(s: seq<char>, p: nat)
    requires p == 0 || p < |s|
    ensures forall k :: BackStop(s, p) < k <= p ==> s[k] != '\n'
  {
    if p != 0 && s[p] != '\n' {
      BackStopPassesNoNewline(s, p - 1);
    }
  }

  /** Moving right within a line adds to the column and crosses no newline. */
  lemma {:induction false} ColumnAtAdvance(s: seq<char>, p: nat, k: nat)
    requires p <= |s| && p + k <= LineEnd(s, p)
    ensures ColumnAt(s, p + k) == ColumnAt(s, p) + k
    ensures NewlinesBefore(s, p + k) == NewlinesBefore(s, p)
  {
    if k > 0 {
      ColumnAtAdvance(s, p, k - 1);
      LineEndNoNewline(s, p);
      assert s[p + k - 1] != '\n';
      NewlinesStep(s, p + k - 1);
    }
  }

  /** Moving left by at most the column stays in the line. */
  lemma {:induction false} ColumnAtRetreat(s: seq<char>, p: nat, k: nat)
    requires p <= |s| && k <= ColumnAt(s, p)
    ensures ColumnAt(s, p - k) == ColumnAt(s, p) - k
    ensures NewlinesBefore(s, p - k) == NewlinesBefore(s, p)
  {
    if k > 0 {
      assert s[p - 1] != '\n';
      ColumnAtRetreat(s, p - 1, k - 1);
      NewlinesStep(s, p - 1);
    }
  }

  /** The start of p's line is in column 0, on p's line. */
  lemma LineStartOf(s: seq<char>, p: nat)
    requires p <= |s|
    ensures ColumnAt(s, p - ColumnAt(s, p)) == 0
    ensures NewlinesBefore(s, p - ColumnAt(s, p)) == NewlinesBefore(s, p)
  {
    ColumnAtRetreat(s, p, ColumnAt(s, p));
  }

  /** Any position between the start and the end of p's line is on p's line, at the column its distance gives. */
  lemma ColumnAtWithinLine(s: seq<char>, p: nat, q: nat)
    requires p <= |s| && p - ColumnAt(s, p) <= q <= LineEnd(s, p)
    ensures ColumnAt(s, q) == ColumnAt(s, p) + (q - p)
    ensures NewlinesBefore(s, q) == NewlinesBefore(s, p)
  {
    if q >= p {
      ColumnAtAdvance(s, p, q - p);
    } else {
      ColumnAtRetreat(s, p, p - q);
    }
  }

  /** The end of the line is the position whose column is the line's length. */
  lemma LineEndColumn(s: seq<char>, p: nat)
    requires p <= |s|
    ensures ColumnAt(s, LineEnd(s, p)) == ColumnAt(s, p) + (LineEnd(s, p) - p)
    ensures NewlinesBefore(s, LineEnd(s, p)) == NewlinesBefore(s, p)
  {
    ColumnAtAdvance(s, p, LineEnd(s, p) - p);
  }

  /** Stepping over the newline that ends a line starts the next line. */
  lemma PastNewline(s: seq<char>, e: nat)
    requires e < |s| && s[e] == '\n'
    ensures ColumnAt(s, e + 1) == 0
    ensures NewlinesBefore(s, e + 1) == NewlinesBefore(s, e) + 1
  {
    NewlinesStep(s, e);
  }

  /** The line end is the first newline at or after p, or the buffer end when there is none. */
  lemma LineEndOf(s: seq<char>, p: nat, e: nat)
    requires p <= e <= |s|
    requires e < |s| ==> s[e] == '\n'
    requires forall k :: p <= k < e ==> s[k] != '\n'
    ensures LineEnd(s, p) == e
  {
    var r := LineEnd(s, p);
    LineEndNoNewline(s, p);
    if e < |s| {
      assert s[e] == '\n';  // so e is not before r
    }
    if r < |s| {
      assert s[r] == '\n';  // so r is not before e
    }
  }

  /** The line that ends at e starts at e - ColumnAt(s, e), in column 0 and on e's line. */
  lemma LineOfEnd(s: seq<char>, e: nat)
    requires e <= |s| && LineEnd(s, e) == e
    ensures var ls := e - ColumnAt(s, e);
      LineEnd(s, ls) == e && ColumnAt(s, ls) == 0 && NewlinesBefore(s, ls) == NewlinesBefore(s, e)
  {
    var ls := e - ColumnAt(s, e);
    ColumnAtRetreat(s, e, ColumnAt(s, e));
    ColumnAtNoNewline(s, e);
    LineEndOf(s, ls, e);
  }
}

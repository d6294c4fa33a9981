/**
 * Source positions and the compiler's base error (src/utils/common.py):
 * a character offset is turned into a 1-based line and column, and an error
 * renders as `[line:column] message` when it knows where it happened.
 */
module Common {
  import opened Wrappers
  import opened PyStr

  /**
   * `get_line_from_position`: 1 for a negative offset, otherwise one more
   * than the number of newlines strictly before the offset.
   */
  function LineFromPosition(text: string, position: int): (line: int)
    ensures line >= 1
    ensures position < 0 ==> line == 1
    ensures position >= 0 ==> line - 1 == Count(Prefix(text, position), '\n')
  {
    if position < 0 then 1 else Count(Prefix(text, position), '\n') + 1
  }

  /**
   * `get_column_from_position`: 1 for a negative offset; with no newline
   * before the offset, the offset plus one; otherwise the distance from the
   * last newline before it.
   */
  function ColumnFromPosition(text: string, position: int): (column: int)
    ensures column >= 1
    ensures position < 0 ==> column == 1
  {
    if position < 0 then 1
    else
      var lastNewline := RFind(Prefix(text, position), '\n');
      if lastNewline == -1 then position + 1 else position - lastNewline
  }

  lemma PrefixStep(text: string, p: nat)
    requires p < |text|
    ensures Prefix(text, p + 1) == Prefix(text, p) + [text[p]]
  {
  }

  /** Reading one more character moves the line on by one exactly when that character is a newline. */
  lemma LineStep(text: string, p: nat)
    requires p < |text|
    ensures LineFromPosition(text, p + 1) ==
            LineFromPosition(text, p) + (if text[p] == '\n' then 1 else 0)
  {
    PrefixStep(text, p);
    var pre := Prefix(text, p + 1);
    assert pre[..|pre| - 1] == Prefix(text, p);
  }

  /** Past the end of the text the line no longer changes. */
  lemma LinePastEnd(text: string, p: int)
    requires p >= |text|
    ensures LineFromPosition(text, p) == Count(text, '\n') + 1
  {
    assert Prefix(text, p) == text;
  }

  /** The line number never decreases as the offset grows. */
  lemma {:induction false} LineMonotone(text: string, p: int, q: int)
    requires p <= q
    ensures LineFromPosition(text, p) <= LineFromPosition(text, q)
    decreases q - p
  {
    if p < q && p >= 0 {
      LineMonotone(text, p + 1, q);
      if p < |text| {
        LineStep(text, p);
      }
    }
  }

  /** The first character of the text is in column 1. */
  lemma ColumnAtStart(text: string)
    ensures ColumnFromPosition(text, 0) == 1
  {
  }

  /**
   * Reading one more character resets the column to 1 after a newline and
   * otherwise moves it on by one.
   */
  lemma ColumnStep(text: string, p: nat)
    requires p < |text|
    ensures ColumnFromPosition(text, p + 1) ==
            if text[p] == '\n' then 1 else ColumnFromPosition(text, p) + 1
  {
    PrefixStep(text, p);
    var pre := Prefix(text, p + 1);
    assert pre[..|pre| - 1] == Prefix(text, p);
  }

  /** The column counts the characters since the last newline before the offset. */
  lemma {:induction false} ColumnCountsSinceNewline(text: string, p: nat)
    requires p <= |text|
    ensures var c := ColumnFromPosition(text, p);
      c <= p + 1 && (forall k :: p - c < k < p ==> text[k] != '\n') &&
      (c <= p ==> text[p - c] == '\n')
  {
    if p > 0 {
      ColumnCountsSinceNewline(text, p - 1);
      ColumnStep(text, p - 1);
    }
  }

  /**
   * Past the end of the text no newline is left to reset the column, so it
   * goes on counting one per offset.
   */
  lemma ColumnPastEnd(text: string, p: int)
    requires p >= |text|
    ensures ColumnFromPosition(text, p) == ColumnFromPosition(text, |text|) + (p - |text|)
  {
    assert Prefix(text, p) == Prefix(text, |text|) == text;
  }

  // ---------------------------------------------------------------- CompilerError

  /** `CompilerError(message, line=None, column=None)`. */
  datatype CompilerError = CompilerError(message: string, line: Option<int>, column: Option<int>)
  {
    /** `str(error)`. */
    function ToString(): (r: string)
      ensures EndsWith(r, message)
      ensures !(line.Some? && column.Some?) ==> r == message
      ensures line.Some? && column.Some? ==>
        var L, C := IntToString(line.value), IntToString(column.value);
        && |r| == |L| + |C| + 4 + |message|
        && r[0] == '['
        && r[1..1 + |L|] == L
        && r[1 + |L|] == ':'
        && r[2 + |L|..2 + |L| + |C|] == C
        && r[2 + |L| + |C|..4 + |L| + |C|] == "] "
    {
      if line.Some? && column.Some? then
        var L, C := IntToString(line.value), IntToString(column.value);
        LocatedLayout(L, C, message);
        "[" + L + ":" + C + "] " + message
      else message
    }
  }

  /** Where each part of a located rendering sits. */
  lemma LocatedLayout(l: string, c: string, m: string)
    ensures var r := "[" + l + ":" + c + "] " + m;
      && |r| == |l| + |c| + 4 + |m|
      && r[0] == '['
      && r[1..1 + |l|] == l
      && r[1 + |l|] == ':'
      && r[2 + |l|..2 + |l| + |c|] == c
      && r[2 + |l| + |c|..4 + |l| + |c|] == "] "
      && r[4 + |l| + |c|..] == m
  {
    var r := "[" + l + ":" + c + "] " + m;
    assert r == ["["[0]] + l + [':'] + c + "] " + m;
  }

  lemma NoSeparatorInNumber(i: int)
    ensures ':' !in IntToString(i) && ']' !in IntToString(i)
  {
    IntToStringChars(i);
  }

  lemma LocatedShape(l: string, c: string, m: string)
    ensures ("[" + l + ":" + c + "] " + m)[1..] == l + [':'] + (c + [']'] + (" " + m))
  {
  }

  /**
   * A located error renders its position in a form that can be read back:
   * two located errors with the same message render equally only when they
   * name the same line and column.
   */
  lemma LocatedRenderingIsUnambiguous(e1: CompilerError, e2: CompilerError)
    requires e1.line.Some? && e1.column.Some? && e2.line.Some? && e2.column.Some?
    requires e1.message == e2.message
    ensures e1.ToString() == e2.ToString() <==> e1.line == e2.line && e1.column == e2.column
  {
    if e1.ToString() == e2.ToString() {
      var l1, c1 := IntToString(e1.line.value), IntToString(e1.column.value);
      var l2, c2 := IntToString(e2.line.value), IntToString(e2.column.value);
      NoSeparatorInNumber(e1.line.value);
      NoSeparatorInNumber(e2.line.value);
      NoSeparatorInNumber(e1.column.value);
      NoSeparatorInNumber(e2.column.value);
      var m := e1.message;
      LocatedShape(l1, c1, m);
      LocatedShape(l2, c2, m);
      SplitAtSeparator(l1, c1 + [']'] + (" " + m), l2, c2 + [']'] + (" " + m), ':');
      SplitAtSeparator(c1, " " + m, c2, " " + m, ']');
      IntToStringInjective(e1.line.value, e2.line.value);
      IntToStringInjective(e1.column.value, e2.column.value);
    }
  }
}

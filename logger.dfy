/** The diagnostics line table (src/Logger.cpp): `setFile` splits the source
    text into numbered lines, and the positional `logMessage` finds the line
    holding an offset to place a caret under it. Printing is not modelled;
    what is kept is which line is found, the caret column, and whether the
    call returns or throws. */
module Logging {
  import opened Wrappers
  import opened Tokens

  datatype LogType = DebugInfo | Error | Warning

  /** One line of the file: its text without the '\n', the offset of its
      first character, the offset just past its last character (where its
      '\n' stands, if it has one) and its number, counted from 1. */
  datatype Line = Line(content: string, startPosition: nat, endPosition: nat, lineNumber: int)

  /** The line search accepts a position when it lies in [start, end]; the
      end is inclusive, so the newline belongs to the line it ends. */
  predicate Contains(l: Line, pos: nat)
    ensures Contains(l, pos) ==> pos - l.startPosition <= l.endPosition - l.startPosition
  {
    l.startPosition <= pos <= l.endPosition
  }

  /** Where `std::getline` stops reading a line that begins at `i`: the first
      '\n' at or after `i`, or the end of the text. */
  function LineEnd(text: string, i: nat): (e: nat)
    requires i <= |text|
    ensures i <= e <= |text|
    ensures forall k :: i <= k < e ==> text[k] != '\n'
    ensures e < |text| ==> text[e] == '\n'
    decreases |text| - i
  {
    if i == |text| || text[i] == '\n' then i else LineEnd(text, i + 1)
  }

  /** The lines `setFile` records when its stream is at offset `cur` and the
      next line number is `num`. `getline` succeeds while at least one
      character is unread, so a final '\n' does not start an empty line. */
  function LinesFrom(text: string, cur: nat, num: int): (ls: seq<Line>)
    ensures |ls| == 0 <==> cur >= |text|
    decreases |text| - cur
  {
    if cur >= |text| then []
    else
      var e := LineEnd(text, cur);
      [Line(text[cur..e], cur, e, num)] + LinesFrom(text, e + 1, num + 1)
  }

  /** The line table of a whole file. */
  function LinesOf(text: string): (ls: seq<Line>)
    ensures |ls| == 0 <==> |text| == 0
  {
    LinesFrom(text, 0, 1)
  }

  /** A line as `setFile` records it: its text is the stretch of the file
      between its two offsets, holds no '\n', and is followed by '\n' unless
      it ends the file. */
  ghost predicate LineOf(text: string, l: Line) {
    && l.startPosition <= l.endPosition <= |text|
    && l.endPosition == l.startPosition + |l.content|
    && l.content == text[l.startPosition..l.endPosition]
    && (forall j :: 0 <= j < |l.content| ==> l.content[j] != '\n')
    && (l.endPosition < |text| ==> text[l.endPosition] == '\n')
  }

  /** What the construction guarantees about a table built from offset `cur`
      with first number `num`. */
  ghost predicate Table(text: string, ls: seq<Line>, cur: nat, num: int) {
    && (|ls| == 0 <==> cur >= |text|)
    && (|ls| > 0 ==> ls[0].startPosition == cur)
    && (|ls| > 0 ==> ls[|ls| - 1].endPosition + 1 >= |text|)
    && (forall k :: 0 <= k < |ls| ==> LineOf(text, ls[k]) && ls[k].lineNumber == num + k)
    && (forall k :: 0 <= k < |ls| - 1 ==> ls[k + 1].startPosition == ls[k].endPosition + 1)
  }

  /** Every line of the table is a stretch of the file without '\n', and
      the lines are numbered consecutively from `num`. */
  lemma {:induction false} LinesFromLines(text: string, cur: nat, num: int)
    ensures forall k :: 0 <= k < |LinesFrom(text, cur, num)| ==>
      LineOf(text, LinesFrom(text, cur, num)[k]) && LinesFrom(text, cur, num)[k].lineNumber == num + k
    decreases |text| - cur
  {
    if cur < |text| {
      var e := LineEnd(text, cur);
      var rest := LinesFrom(text, e + 1, num + 1);
      LinesFromLines(text, e + 1, num + 1);
      var head := Line(text[cur..e], cur, e, num);
      assert LineOf(text, head);
      var ls := LinesFrom(text, cur, num);
      assert ls == [head] + rest;
      forall k | 1 <= k < |ls|
        ensures LineOf(text, ls[k]) && ls[k].lineNumber == num + k
      {
        assert ls[k] == rest[k - 1];
      }
    }
  }

  /** Each line starts one past the end of the line before it, the first at
      `cur`, and the last reaches the end of the file. */
  lemma {:induction false} LinesFromChain(text: string, cur: nat, num: int)
    ensures var ls := LinesFrom(text, cur, num);
      && (|ls| == 0 <==> cur >= |text|)
      && (|ls| > 0 ==> ls[0].startPosition == cur)
      && (|ls| > 0 ==> ls[|ls| - 1].endPosition + 1 >= |text|)
      && (forall k :: 0 <= k < |ls| - 1 ==> ls[k + 1].startPosition == ls[k].endPosition + 1)
    decreases |text| - cur
  {
    if cur < |text| {
      var e := LineEnd(text, cur);
      var rest := LinesFrom(text, e + 1, num + 1);
      LinesFromChain(text, e + 1, num + 1);
      var ls := LinesFrom(text, cur, num);
      assert ls == [Line(text[cur..e], cur, e, num)] + rest;
      forall k | 1 <= k < |ls| - 1
        ensures ls[k + 1].startPosition == ls[k].endPosition + 1
      {
        assert ls[k] == rest[k - 1] && ls[k + 1] == rest[k];
      }
    }
  }

  /** Lines are numbered consecutively, hold no '\n', end at start + length,
      and each starts one past the end of the previous one. */
  lemma LinesFromTable(text: string, cur: nat, num: int)
    ensures Table(text, LinesFrom(text, cur, num), cur, num)
  {
    LinesFromLines(text, cur, num);
    LinesFromChain(text, cur, num);
  }

  /** The file's table is numbered from 1 and starts at offset 0. */
  lemma LinesOfTable(text: string)
    ensures Table(text, LinesOf(text), 0, 1)
    ensures LinesOf(text) == [] <==> text == ""
  {
    LinesFromTable(text, 0, 1);
  }

  /** Line ranges do not overlap: a later line starts after an earlier one ends. */
  lemma {:induction false} TableOrdered(text: string, ls: seq<Line>, cur: nat, num: int, a: nat, b: nat)
    requires Table(text, ls, cur, num)
    requires a < b < |ls|
    ensures ls[a].endPosition < ls[b].startPosition
    decreases b - a
  {
    if a + 1 < b {
      TableOrdered(text, ls, cur, num, a + 1, b);
    }
  }

  /** Every offset of the text falls in some line of the table. */
  lemma {:induction false} LinesFromCover(text: string, cur: nat, num: int, p: nat)
    requires cur <= p < |text|
    ensures exists k :: 0 <= k < |LinesFrom(text, cur, num)| && Contains(LinesFrom(text, cur, num)[k], p)
    decreases |text| - cur
  {
    var e := LineEnd(text, cur);
    var ls := LinesFrom(text, cur, num);
    if p <= e {
      assert Contains(ls[0], p);
    } else {
      LinesFromCover(text, e + 1, num + 1, p);
      var rest := LinesFrom(text, e + 1, num + 1);
      var k :| 0 <= k < |rest| && Contains(rest[k], p);
      assert ls[k + 1] == rest[k];
    }
  }

  /** Search the table from index `k` for the first line holding `pos`. */
  function FindFrom(lines: seq<Line>, k: nat, pos: nat): (r: Option<nat>)
    requires k <= |lines|
    ensures r.Some? ==> k <= r.value < |lines| && Contains(lines[r.value], pos)
    ensures r.Some? ==> forall j :: k <= j < r.value ==> !Contains(lines[j], pos)
    ensures r.None? ==> forall j :: k <= j < |lines| ==> !Contains(lines[j], pos)
    decreases |lines| - k
  {
    if k == |lines| then None
    else if Contains(lines[k], pos) then Some(k)
    else FindFrom(lines, k + 1, pos)
  }

  /** The index of the first line whose range holds `pos`, if any. */
  function FindLine(lines: seq<Line>, pos: nat): (r: Option<nat>)
    ensures r.Some? ==> r.value < |lines| && Contains(lines[r.value], pos)
    ensures r.Some? ==> forall j :: 0 <= j < r.value ==> !Contains(lines[j], pos)
    ensures r.None? <==> forall j :: 0 <= j < |lines| ==> !Contains(lines[j], pos)
  {
    FindFrom(lines, 0, pos)
  }

  /** Where a caret is drawn: the line's number and text, and the column. */
  datatype Caret = Caret(lineNumber: int, content: string, column: nat)

  /** The two exceptions of the positional `logMessage`. */
  datatype LogFailure = OutOfRange(position: nat) | RuntimeError(caret: Caret)

  /** A positional `logMessage` either returns, having shown a caret (for a
      warning) or nothing (for debug information), or throws. */
  datatype LogOutcome = Returned(shown: Option<Caret>) | Thrown(failure: LogFailure)

  /** The outcome of `logMessage(type, msg, position)` over a line table. */
  function LogAt(lines: seq<Line>, t: LogType, pos: nat): (r: LogOutcome)
    ensures r.Returned? ==> t != Error && FindLine(lines, pos).Some?
    ensures r.Returned? ==> (r.shown.Some? <==> t == Warning)
    ensures r.Thrown? && r.failure.OutOfRange? ==> r.failure.position == pos && FindLine(lines, pos).None?
  {
    match FindLine(lines, pos)
    case None => Thrown(OutOfRange(pos))
    case Some(k) =>
      var caret := Caret(lines[k].lineNumber, lines[k].content, pos - lines[k].startPosition);
      match t
      case Error => Thrown(RuntimeError(caret))
      case Warning => Returned(Some(caret))
      case DebugInfo => Returned(None)
  }

  /** An ERROR always throws; any other message throws exactly when no line
      holds the position, and a warning then shows the caret of the first
      line holding it. */
  lemma LogAtOutcome(lines: seq<Line>, t: LogType, pos: nat)
    ensures t == Error ==> LogAt(lines, t, pos).Thrown?
    ensures t != Error ==> (LogAt(lines, t, pos).Thrown? <==> forall j :: 0 <= j < |lines| ==> !Contains(lines[j], pos))
    ensures t == Warning && LogAt(lines, t, pos).Returned? ==>
      exists k :: 0 <= k < |lines| && Contains(lines[k], pos) &&
        (forall j :: 0 <= j < k ==> !Contains(lines[j], pos)) &&
        LogAt(lines, t, pos).shown == Some(Caret(lines[k].lineNumber, lines[k].content, pos - lines[k].startPosition))
  {
  }

  /** Over the table of a file, a message about any offset of the file finds
      the unique line holding it; the caret column lies within the line (at
      its end exactly when the offset is the line's '\n') and points at the
      character at that offset. */
  lemma CaretInFile(text: string, p: nat, k: nat)
    requires p < |text|
    requires k < |LinesOf(text)| && Contains(LinesOf(text)[k], p)
    ensures FindLine(LinesOf(text), p) == Some(k)
    ensures var l := LinesOf(text)[k];
      && LogAt(LinesOf(text), Warning, p) == Returned(Some(Caret(l.lineNumber, l.content, p - l.startPosition)))
      && p - l.startPosition <= |l.content|
      && (p - l.startPosition < |l.content| ==> l.content[p - l.startPosition] == text[p])
      && (p - l.startPosition == |l.content| <==> text[p] == '\n')
  {
    var ls := LinesOf(text);
    LinesOfTable(text);
    var f := FindLine(ls, p);
    if f.Some? && f.value < k {
      TableOrdered(text, ls, 0, 1, f.value, k);
    }
    var l := ls[k];
    assert LineOf(text, l);
    if p - l.startPosition < |l.content| {
      assert l.content[p - l.startPosition] == text[p];
    }
  }

  /** Every offset of a file has a line in the file's table, so a warning
      about it returns normally. */
  lemma WarningInFileReturns(text: string, p: nat)
    requires p < |text|
    ensures LogAt(LinesOf(text), Warning, p).Returned?
  {
    LinesFromCover(text, 0, 1, p);
    var k :| 0 <= k < |LinesOf(text)| && Contains(LinesOf(text)[k], p);
    CaretInFile(text, p, k);
  }

  /** The logger's static state: the file text and its line table. */
  /** Recording the line that starts at `cur` leaves the lines after it to
      be read. */
  lemma TableStep(text: string, cur: nat, num: int)
    requires cur < |text|
    ensures var e := LineEnd(text, cur);
      LinesFrom(text, cur, num) == [Line(text[cur..e], cur, e, num)] + LinesFrom(text, e + 1, num + 1)
  {
  }

  lemma Append<T>(a: seq<T>, x: T, b: seq<T>)
    ensures (a + [x]) + b == a + ([x] + b)
  {
  }

  class Logger {
    var fileText: string
    var lines: seq<Line>

    /** The static members start out empty. */
    constructor ()
      ensures fileText == "" && lines == []
    {
      fileText := "";
      lines := [];
    }

    /** `setFile`: remember the text and rebuild the line table from scratch,
        one `getline` per iteration. `currChar` is also the stream's read
        offset, so `getline` succeeds exactly while `currChar < |text|`. */
    method SetFile(text: string)
      modifies this
      ensures fileText == text
      ensures lines == LinesOf(text)
    {
      fileText := text;
      lines := [];
      var currChar: nat := 0;
      var lineNum: int := 1;
      while currChar < |text|
        invariant fileText == text
        invariant currChar <= |text| + 1
        invariant lines + LinesFrom(text, currChar, lineNum) == LinesOf(text)
        decreases |text| + 1 - currChar
      {
        var currLine := text[currChar..LineEnd(text, currChar)];
        var endChar := currChar + |currLine|;
        assert endChar == LineEnd(text, currChar);
        TableStep(text, currChar, lineNum);
        Append(lines, Line(currLine, currChar, endChar, lineNum), LinesFrom(text, endChar + 1, lineNum + 1));
        lines := lines + [Line(currLine, currChar, endChar, lineNum)];
        currChar := endChar + 1;
        lineNum := lineNum + 1;
      }
    }

    /** The positional `logMessage`: a linear search for the first line
        holding `pos`, then throw or show the caret. */
    method LogMessage(t: LogType, pos: nat) returns (out: LogOutcome)
      ensures out == LogAt(lines, t, pos)
    {
      var currLine := Line("", 0, 0, 0);
      var lineFound := false;
      var k := 0;
      while k < |lines|
        invariant k <= |lines|
        invariant FindFrom(lines, k, pos) == FindLine(lines, pos)
      {
        if Contains(lines[k], pos) {
          currLine := lines[k];
          lineFound := true;
          break;
        }
        k := k + 1;
      }
      if !lineFound {
        return Thrown(OutOfRange(pos));
      }
      var caret := Caret(currLine.lineNumber, currLine.content, pos - currLine.startPosition);
      match t
      case Error => out := Thrown(RuntimeError(caret));
      case Warning => out := Returned(Some(caret));
      case DebugInfo => out := Returned(None);
    }

    /** The overload taking a token searches for the token's position. */
    method LogMessageAt(t: LogType, token: Token) returns (out: LogOutcome)
      ensures out == LogAt(lines, t, token.position)
    {
      out := LogMessage(t, token.position);
    }
  }
}

/** Line structure of a text snapshot, as Python's `str.splitlines(keepends=True)` sees it.

    The file tools address text by 1-based logical line and by character offset.
    Everything here rests on one local notion: `Break(s, i)` says that a new line
    starts at offset `i`. A line feed directly after a carriage return does not
    start a line, so CRLF is one terminator.
 */
module TextLines {

  /** LF, VT, FF, CR; the three file separators; NEL; the Unicode line and paragraph separators. */
  predicate IsTerminator(c: char) {
    || '\n' <= c <= '\r'
    || '\U{1C}' <= c <= '\U{1E}'
    || c == '\U{85}'
    || '\U{2028}' <= c <= '\U{2029}'
  }

  /** A line starts at offset `i`, strictly inside `s`. */
  predicate Break(s: string, i: int) {
    0 < i < |s| && IsTerminator(s[i - 1]) && !(s[i - 1] == '\r' && s[i] == '\n')
  }

  /** The number of the line that holds character `p`: one more than the breaks up to `p`. */
  function LineAt(s: string, p: nat): (n: nat)
    requires p < |s|
    ensures 1 <= n <= p + 1
  {
    if p == 0 then 1 else LineAt(s, p - 1) + (if Break(s, p) then 1 else 0)
  }

  function NumLines(s: string): nat {
    if s == "" then 0 else LineAt(s, |s| - 1)
  }

  /** The end of the line that holds character `i`. */
  function LineEnd(s: string, i: nat): (e: nat)
    requires i < |s|
    ensures i < e <= |s|
    ensures e == |s| || Break(s, e)
    ensures forall k :: i < k < e ==> !Break(s, k)
    decreases |s| - i
  {
    if i + 1 == |s| || Break(s, i + 1) then i + 1 else LineEnd(s, i + 1)
  }

  /** The lines of `s` from offset `from` on, each with its terminator. */
  function SplitLinesFrom(s: string, from: nat): seq<string>
    requires from <= |s|
    decreases |s| - from
  {
    if from == |s| then []
    else [s[from..LineEnd(s, from)]] + SplitLinesFrom(s, LineEnd(s, from))
  }

  /** `s.splitlines(keepends=True)`. */
  function SplitLines(s: string): seq<string> {
    SplitLinesFrom(s, 0)
  }

  function LineStartsFrom(s: string, from: nat): seq<nat>
    requires from <= |s|
    decreases |s| - from
  {
    if from == |s| then [] else [from] + LineStartsFrom(s, LineEnd(s, from))
  }

  function LineStarts(s: string): seq<nat> {
    LineStartsFrom(s, 0)
  }

  /** The text of a line without its terminator. */
  function Chomp(line: string): string {
    if |line| >= 2 && line[|line| - 2] == '\r' && line[|line| - 1] == '\n' then line[..|line| - 2]
    else if line != "" && IsTerminator(line[|line| - 1]) then line[..|line| - 1]
    else line
  }

  /** The line at an insertion point; the point at end of text belongs to the last line. */
  function LineNumber(s: string, offset: int): (n: nat)
    ensures n >= 1
  {
    if s == "" then 1
    else if offset <= 0 then 1
    else if offset < |s| then LineAt(s, offset)
    else LineAt(s, |s| - 1)
  }

  // ----- the counting view and the splitting view agree

  lemma {:induction false} LineAtSpan(s: string, p: nat, q: nat)
    requires p <= q < |s|
    ensures LineAt(s, p) <= LineAt(s, q)
    ensures (forall k :: p < k <= q ==> !Break(s, k)) ==> LineAt(s, p) == LineAt(s, q)
    ensures LineAt(s, p) == LineAt(s, q) ==> forall k :: p < k <= q ==> !Break(s, k)
    decreases q
  {
    if p < q {
      LineAtSpan(s, p, q - 1);
    }
  }

  /** What the `j`-th line from offset `from` on is: where it starts, ends and its number. */
  ghost predicate LineFrom(s: string, from: nat, j: nat)
    requires from < |s|
  {
    var starts, lines := LineStartsFrom(s, from), SplitLinesFrom(s, from);
    && j < |starts| && j < |lines|
    && from <= starts[j] < |s|
    && (j == 0 || Break(s, starts[j]))
    && LineAt(s, starts[j]) == LineAt(s, from) + j
    && lines[j] == s[starts[j]..LineEnd(s, starts[j])]
    && LineEnd(s, starts[j]) == (if j + 1 < |starts| then starts[j + 1] else |s|)
  }

  lemma {:induction false} CountFrom(s: string, from: nat)
    requires from < |s|
    ensures |SplitLinesFrom(s, from)| == |LineStartsFrom(s, from)|
    ensures |LineStartsFrom(s, from)| == NumLines(s) - LineAt(s, from) + 1
    decreases |s| - from
  {
    hide LineAt, Break, LineEnd;
    var e := LineEnd(s, from);
    NextStartsLine(s, from);
    if e < |s| {
      CountFrom(s, e);
    }
  }

  /** The correspondence of starts, lines and line numbers, from a line start on. */
  lemma {:induction false} SplitAt(s: string, from: nat, j: nat)
    requires from < |s| && j < |LineStartsFrom(s, from)|
    ensures LineFrom(s, from, j)
    decreases j
  {
    hide LineAt, Break, LineEnd, LineFrom;
    var e := LineEnd(s, from);
    if j == 0 {
      FirstLineFrom(s, from);
    } else {
      assert LineStartsFrom(s, from) == [from] + LineStartsFrom(s, e);
      NextStartsLine(s, from);
      SplitAt(s, e, j - 1);
      LaterLineFrom(s, from, j);
    }
  }

  /** Where a line ends the next one starts. */
  lemma NextStartsLine(s: string, from: nat)
    requires from < |s|
    ensures LineEnd(s, from) < |s| ==> LineAt(s, LineEnd(s, from)) == LineAt(s, from) + 1
    ensures LineAt(s, LineEnd(s, from) - 1) == LineAt(s, from)
  {
    LineAtSpan(s, from, LineEnd(s, from) - 1);
  }

  lemma FirstLineFrom(s: string, from: nat)
    requires from < |s|
    ensures LineFrom(s, from, 0)
  {
    hide LineAt, Break;
    var e := LineEnd(s, from);
    assert LineStartsFrom(s, from) == [from] + LineStartsFrom(s, e);
    assert SplitLinesFrom(s, from) == [s[from..e]] + SplitLinesFrom(s, e);
    assert e < |s| ==> LineStartsFrom(s, e)[0] == e;
  }

  lemma LaterLineFrom(s: string, from: nat, j: nat)
    requires from < |s| && 0 < j && LineEnd(s, from) < |s| && LineFrom(s, LineEnd(s, from), j - 1)
    requires LineAt(s, LineEnd(s, from)) == LineAt(s, from) + 1
    ensures LineFrom(s, from, j)
  {
    hide LineAt;
  }

  /** Line `k` of a text: where it starts, where it ends, and that it is the `k`-th split line. */
  lemma LineFacts(s: string, k: nat)
    requires 1 <= k <= NumLines(s)
    ensures |SplitLines(s)| == |LineStarts(s)| == NumLines(s)
    ensures LineStarts(s)[k - 1] < |s|
    ensures LineStarts(s)[k - 1] == 0 || Break(s, LineStarts(s)[k - 1])
    ensures LineAt(s, LineStarts(s)[k - 1]) == k
    ensures SplitLines(s)[k - 1] == s[LineStarts(s)[k - 1]..LineEnd(s, LineStarts(s)[k - 1])]
    ensures k == 1 <==> LineStarts(s)[k - 1] == 0
  {
    CountFrom(s, 0);
    SplitAt(s, 0, k - 1);
  }

  lemma CountLines(s: string)
    ensures |SplitLines(s)| == |LineStarts(s)| == NumLines(s)
  {
    if s != "" { CountFrom(s, 0); }
  }

  /** A line start determines its line: the converse of LineFacts. */
  lemma StartOfLine(s: string, p: nat)
    requires p < |s|
    requires p == 0 || Break(s, p)
    ensures 1 <= LineAt(s, p) <= NumLines(s)
    ensures LineAt(s, p) <= |LineStarts(s)| && LineStarts(s)[LineAt(s, p) - 1] == p
  {
    LineAtSpan(s, p, |s| - 1);
    var k := LineAt(s, p);
    LineFacts(s, k);
    var q := LineStarts(s)[k - 1];
    if q < p { LineAtSpan(s, q, p); }
    if p < q { LineAtSpan(s, p, q); }
  }

  /** The characters of line `k` are exactly the offsets from its start to its end. */
  lemma InLine(s: string, k: nat, p: nat)
    requires 1 <= k <= NumLines(s) && p < |s|
    ensures |LineStarts(s)| == NumLines(s)
    ensures LineStarts(s)[k - 1] < |s|
    ensures LineAt(s, p) == k <==> LineStarts(s)[k - 1] <= p < LineEnd(s, LineStarts(s)[k - 1])
  {
    LineFacts(s, k);
    var q := LineStarts(s)[k - 1];
    if q <= p { LineAtSpan(s, q, p); } else { LineAtSpan(s, p, q); }
  }

  lemma LineNumberMonotone(s: string, a: int, b: int)
    requires a <= b
    ensures LineNumber(s, a) <= LineNumber(s, b)
  {
    if s != "" {
      var p := if a <= 0 then 0 else if a < |s| then a else |s| - 1;
      var q := if b <= 0 then 0 else if b < |s| then b else |s| - 1;
      LineAtSpan(s, p, q);
    }
  }

  // ----- the source's scanning loops

  method TextLineStarts(content: string) returns (starts: seq<nat>)
    ensures starts == LineStarts(content)
  {
    var lines := SplitLines(content);
    starts := [];
    var cursor: nat := 0;
    var i := 0;
    assert Scanned(content, lines, 0, 0, []);
    hide *;
    while i < |lines|
      invariant 0 <= i <= |lines| && Scanned(content, lines, i, cursor, starts)
    {
      ScannedMore(content, lines, i, cursor, starts);
      starts := starts + [cursor];
      cursor := cursor + |lines[i]|;
      i := i + 1;
    }
    ScannedAll(content, lines, cursor, starts);
  }

  /** `starts` are the starts of the first `i` lines, and the others are the lines from `cursor` on. */
  ghost predicate Scanned(s: string, lines: seq<string>, i: nat, cursor: nat, starts: seq<nat>)
    requires i <= |lines|
  {
    cursor <= |s| && lines[i..] == SplitLinesFrom(s, cursor) && starts + LineStartsFrom(s, cursor) == LineStarts(s)
  }

  lemma ScannedMore(s: string, lines: seq<string>, i: nat, cursor: nat, starts: seq<nat>)
    requires i < |lines| && Scanned(s, lines, i, cursor, starts)
    ensures Scanned(s, lines, i + 1, cursor + |lines[i]|, starts + [cursor])
  {
    hide SplitLinesFrom, LineStartsFrom, LineStarts;
    assert lines[i] == lines[i..][0] && lines[i + 1..] == lines[i..][1..];
    OneLine(s, cursor);
    assert starts + LineStartsFrom(s, cursor) == starts + [cursor] + LineStartsFrom(s, cursor + |lines[i]|);
  }

  lemma ScannedAll(s: string, lines: seq<string>, cursor: nat, starts: seq<nat>)
    requires Scanned(s, lines, |lines|, cursor, starts)
    ensures starts == LineStarts(s)
  {
    hide SplitLinesFrom, LineStartsFrom, LineStarts;
    OneLine(s, cursor);
    assert starts + [] == starts;
  }

  /** The first line from an offset on, and the rest. */
  lemma OneLine(s: string, from: nat)
    requires from <= |s|
    ensures SplitLinesFrom(s, from) == [] <==> from == |s|
    ensures from == |s| ==> LineStartsFrom(s, from) == []
    ensures from < |s| ==> var line := SplitLinesFrom(s, from)[0];
      && from < from + |line| <= |s|
      && SplitLinesFrom(s, from)[1..] == SplitLinesFrom(s, from + |line|)
      && LineStartsFrom(s, from) == [from] + LineStartsFrom(s, from + |line|)
  {
    hide Break;
  }

  method LineNumberAtOffset(content: string, offset: int) returns (n: nat)
    ensures n == LineNumber(content, offset)
  {
    var lines := SplitLines(content);
    if |lines| == 0 {
      return 1;
    }
    CountFrom(content, 0);
    var position := if offset < 0 then 0 else if offset > |content| then |content| else offset;
    var cursor := 0;
    for i := 0 to |lines|
      invariant cursor == if i < |lines| then LineStarts(content)[i] else |content|
      invariant cursor <= position
    {
      SplitAt(content, 0, i);
      var end := cursor + |lines[i]|;
      if position < end {
        InLine(content, i + 1, position);
        return i + 1;
      }
      cursor := end;
    }
    return |lines|;
  }

  /** The last line an interval ending at `end` can affect. Consuming a terminator can join the
      following line, so the end point counts as well as the last character.
   */
  method LastAffectedLine(content: string, end: nat) returns (endLine: nat)
    requires 0 < end <= |content|
    ensures endLine == LineNumber(content, end)
  {
    var lines := SplitLines(content);
    CountFrom(content, 0);
    assert LineStarts(content)[0] == 0;
    hide SplitLinesFrom, LineStartsFrom;
    endLine := LineNumberAtOffset(content, end - 1);
    var cursor := 0;
    hide LineNumber, LineStarts;
    for i := 0 to |lines|
      invariant cursor == if i < |lines| then LineStarts(content)[i] else |content|
      invariant forall j :: 0 < j <= i && j < |lines| ==> LineStarts(content)[j] != end
      invariant endLine == LineNumber(content, end - 1)
    {
      LineSpan(content, i);
      cursor := cursor + |lines[i]|;
      if end == cursor && i + 1 < |lines| {
        StartsLine(content, i + 1);
        if IsTerminator(lines[i][|lines[i]| - 1]) {
          endLine := i + 2;
        }
        return;
      }
    }
    NotAStart(content, end);
  }

  /** Line `i` fills the text from its start to the next one. */
  lemma LineSpan(s: string, i: nat)
    requires i < |LineStarts(s)|
    ensures |SplitLines(s)| == |LineStarts(s)| && |SplitLines(s)[i]| > 0
    ensures LineStarts(s)[i] + |SplitLines(s)[i]| == if i + 1 < |LineStarts(s)| then LineStarts(s)[i + 1] else |s|
  {
    CountLines(s);
    SplitAt(s, 0, i);
    hide LineAt, Break;
  }

  /** The line before a line start ends in a terminator, and the start is on the next line. */
  lemma StartsLine(s: string, i: nat)
    requires 0 < i < |LineStarts(s)|
    ensures |SplitLines(s)| == |LineStarts(s)| && SplitLines(s)[i - 1] != ""
    ensures IsTerminator(SplitLines(s)[i - 1][|SplitLines(s)[i - 1]| - 1])
    ensures LineNumber(s, LineStarts(s)[i]) == i + 1
  {
    CountLines(s);
    SplitAt(s, 0, i - 1);
    SplitAt(s, 0, i);
  }

  /** An offset that starts no line is on the line of the character before it. */
  lemma NotAStart(s: string, p: nat)
    requires 0 < p <= |s| && forall j :: 0 < j < |LineStarts(s)| ==> LineStarts(s)[j] != p
    ensures LineNumber(s, p) == LineNumber(s, p - 1)
  {
    if p < |s| && Break(s, p) {
      StartOfLine(s, p);
    }
  }

  method LineRangeForOffsets(content: string, startOffset: int, endOffset: int)
    returns (first: nat, last: nat)
    ensures first == LineNumber(content, startOffset)
    ensures last == LineNumber(content, if startOffset <= endOffset then endOffset else startOffset)
    ensures first <= last
  {
    if |content| == 0 {
      return 1, 1;
    }
    var start := if startOffset < 0 then 0 else if startOffset > |content| then |content| else startOffset;
    var end := if endOffset < start then start else endOffset;
    end := if end > |content| then |content| else end;
    var startLine := LineNumberAtOffset(content, start);
    if end == start {
      return startLine, startLine;
    }
    var endLine := LastAffectedLine(content, end);
    LineNumberMonotone(content, start, end);
    return startLine, if startLine <= endLine then endLine else startLine;
  }
}

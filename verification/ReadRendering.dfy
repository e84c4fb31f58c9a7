/** Rendering requested blocks of a file, with a span for every rendered line.

    The spans are what later credits a line as seen, so each has to point at exactly the text of
    its line, whatever notices, headers and skipped blocks stand around it.
 */
module ReadRendering {
  import opened Delivery
  import opened FileAuthority
  import opened Paging
  import opened Prelude

  /** Lines `start..end` of the file; `shown`: they were delivered before. */
  datatype Block = Block(start: nat, end: nat, shown: bool)

  // ----- text

  function Digits(n: nat): (d: string)
    ensures |d| > 0
  {
    if n < 10 then [('0' as int + n) as char] else Digits(n / 10) + [('0' as int + n % 10) as char]
  }

  function Blanks(n: nat): string {
    seq(n, _ => ' ')
  }

  /** The line number, right-aligned in six columns. */
  function Margin(i: nat): (m: string)
    ensures |m| > 0
  {
    (if |Digits(i)| < 6 then Blanks(6 - |Digits(i)|) else "") + Digits(i) + "\t"
  }

  const BOM := '\U{FEFF}'

  function Display(i: nat, line: string): string {
    if i == 1 && |line| > 0 && line[0] == BOM then line[1..] else line
  }

  /** The terminators an edit can spell; any other one stays part of the shown text. */
  function Ending(line: string): (e: string)
    ensures |e| <= |line|
  {
    if |line| >= 2 && line[|line| - 2..] == "\r\n" then "\r\n"
    else if |line| >= 1 && (line[|line| - 1] == '\r' || line[|line| - 1] == '\n') then [line[|line| - 1]]
    else ""
  }

  /** How line `i` is shown. */
  function Rendered(i: nat, line: string): (r: string)
    ensures |r| > 0
  {
    var d := Display(i, line);
    Margin(i) + d[..|d| - |Ending(d)|]
  }

  function Header(b: Block, total: nat): string {
    "──── lines " + Digits(b.start) + "-" + Digits(b.end) + " of " + Digits(total) + " ────"
  }

  function Unchanged(b: Block): string {
    "──── lines " + Digits(b.start) + "-" + Digits(b.end) + " unchanged; already delivered ────"
  }

  function MoreBelow(b: Block, total: nat): string {
    if b.end < total then "\n\n... (" + Digits(total - b.end) + " more lines below)" else ""
  }

  /** The blocks with an empty line between them. */
  function Join(blocks: seq<string>): string {
    if blocks == [] then ""
    else if |blocks| == 1 then blocks[0]
    else Join(blocks[..|blocks| - 1]) + "\n\n" + blocks[|blocks| - 1]
  }

  function Before(blocks: seq<string>): string {
    if blocks == [] then "" else Join(blocks) + "\n\n"
  }

  lemma JoinMore(blocks: seq<string>, b: string)
    ensures Join(blocks + [b]) == Before(blocks) + b
  {
  }

  // ----- what a reader sees of a line

  predicate IsDigit(c: char) {
    '0' <= c <= '9'
  }

  /** The number a string of decimal digits stands for. */
  function Value(d: string): nat {
    if d == "" then 0 else Value(d[..|d| - 1]) * 10 + DigitValue(d[|d| - 1])
  }

  function DigitValue(c: char): nat {
    if IsDigit(c) then c as int - '0' as int else 0
  }

  /** `d` is the usual decimal form of `n`. */
  predicate IsDecimal(d: string, n: nat) {
    && d != "" && (forall c :: c in d ==> IsDigit(c)) && Value(d) == n
    && (|d| > 1 ==> d[0] != '0')
  }

  predicate EndsIn(s: string, e: string) {
    |e| <= |s| && s[|s| - |e|..] == e
  }

  /** `e` is the longest of the line endings an edit can spell that ends the line. */
  predicate IsEnding(line: string, e: string) {
    && EndsIn(line, e)
    && (|| e == "\r\n"
        || ((e == "\r" || e == "\n") && !EndsIn(line, "\r\n"))
        || (e == "" && !EndsIn(line, "\r") && !EndsIn(line, "\n")))
  }

  /** `d` is line `i` of the file, but for a byte order mark in front of the first. */
  predicate IsPlain(i: nat, line: string, d: string) {
    if i == 1 && [BOM] <= line then line == [BOM] + d else line == d
  }

  /** The piece is the number of the line in at least six columns, a tab, and what together with `e` is the line. */
  ghost predicate ShowsWith(piece: string, i: nat, line: string, e: string) {
    exists pad: string, number: string, rest: string :: ShowsAs(piece, i, line, e, pad, number, rest)
  }

  predicate ShowsAs(piece: string, i: nat, line: string, e: string, pad: string, number: string, rest: string) {
    && piece == pad + number + "\t" + rest
    && (forall c :: c in pad ==> c == ' ') && |pad| + |number| >= 6 && (pad != "" ==> |pad| + |number| == 6)
    && IsDecimal(number, i)
    && IsPlain(i, line, rest + e) && IsEnding(rest + e, e)
  }

  lemma {:induction false} DigitsAreDecimal(n: nat)
    ensures IsDecimal(Digits(n), n) && (n > 0 ==> Digits(n)[0] != '0')
    decreases n
  {
    if n >= 10 {
      DigitsAreDecimal(n / 10);
      var front, last := Digits(n / 10), ('0' as int + n % 10) as char;
      assert Digits(n) == front + [last] && Digits(n)[..|Digits(n)| - 1] == front;
    } else {
      assert Digits(n)[..0] == "";
    }
  }

  lemma EndsInOne(s: string, c: char)
    ensures EndsIn(s, [c]) <==> s != "" && s[|s| - 1] == c
  {
    if s != "" {
      assert s[|s| - 1..] == [s[|s| - 1]];
    }
  }

  lemma EndsInNothing(s: string)
    ensures EndsIn(s, "")
  {
  }

  lemma EndingIsEnding(line: string)
    ensures IsEnding(line, Ending(line))
  {
    EndsInOne(line, '\r');
    EndsInOne(line, '\n');
    EndsInNothing(line);
    assert EndsIn(line, "\r\n") <==> |line| >= 2 && line[|line| - 2..] == "\r\n";
    hide EndsIn;
    assert ['\r'] == "\r" && ['\n'] == "\n";
  }

  lemma WithoutEnding(line: string)
    ensures line[..|line| - |Ending(line)|] + Ending(line) == line
  {
    EndingIsEnding(line);
    hide Ending;
    CutEnd(line, Ending(line));
  }

  lemma CutEnd(s: string, e: string)
    requires EndsIn(s, e)
    ensures s[..|s| - |e|] + e == s
  {
  }

  lemma DisplayIsPlain(i: nat, line: string)
    ensures IsPlain(i, line, Display(i, line))
  {
    if |line| > 0 {
      assert line == [line[0]] + line[1..];
    }
  }

  /** The rendering of a line shows its number and its text, and leaves out just its ending. */
  lemma RenderedShows(i: nat, line: string)
    ensures ShowsWith(Rendered(i, line), i, line, Ending(Display(i, line)))
  {
    hide *;
    var d := Display(i, line);
    var e := Ending(d);
    var rest := d[..|d| - |e|];
    var pad := RenderedParts(i, line);
    DigitsAreDecimal(i);
    EndingIsEnding(d);
    WithoutEnding(d);
    DisplayIsPlain(i, line);
    ShownSo(Rendered(i, line), i, line, e, pad, Digits(i), rest);
  }

  lemma RenderedParts(i: nat, line: string) returns (pad: string)
    ensures var d := Display(i, line);
      Rendered(i, line) == pad + Digits(i) + "\t" + d[..|d| - |Ending(d)|]
    ensures (forall c :: c in pad ==> c == ' ') && |pad| + |Digits(i)| >= 6 && (pad != "" ==> |pad| + |Digits(i)| == 6)
  {
    hide Digits, Ending, Display;
    pad := if |Digits(i)| < 6 then Blanks(6 - |Digits(i)|) else "";
  }

  lemma ShownSo(piece: string, i: nat, line: string, e: string, pad: string, number: string, rest: string)
    requires piece == pad + number + "\t" + rest
    requires (forall c :: c in pad ==> c == ' ') && |pad| + |number| >= 6 && (pad != "" ==> |pad| + |number| == 6)
    requires IsDecimal(number, i) && IsPlain(i, line, rest + e) && IsEnding(rest + e, e)
    ensures ShowsWith(piece, i, line, e)
  {
    hide IsDecimal, IsPlain, IsEnding;
    assert ShowsAs(piece, i, line, e, pad, number, rest);
  }

  // ----- spans

  ghost predicate ShowsLine(piece: string, i: nat, line: string) {
    exists e :: ShowsWith(piece, i, line, e)
  }

  /** The span marks a whole line, and the text shows it there. */
  ghost predicate Marks(text: string, s: Span, lines: seq<string>) {
    && WholeRendering(s) && s.startLine <= |lines| && s.endOffset <= |text|
    && ShowsLine(text[s.startOffset..s.endOffset], s.startLine, lines[s.startLine - 1])
  }

  ghost predicate AllMark(text: string, spans: seq<Span>, lines: seq<string>) {
    forall s :: s in spans ==> Marks(text, s, lines)
  }

  lemma MarksMore(text: string, more: string, spans: seq<Span>, lines: seq<string>)
    requires AllMark(text, spans, lines)
    ensures AllMark(text + more, spans, lines)
  {
    hide ShowsLine;
    forall s | s in spans
      ensures Marks(text + more, s, lines)
    {
      assert Marks(text, s, lines);
      assert (text + more)[s.startOffset..s.endOffset] == text[s.startOffset..s.endOffset];
    }
  }

  function LineSpan(cursor: nat, i: nat, rendered: string): Span {
    Span(cursor, cursor + |rendered|, i, i, 0, |rendered|, |rendered|)
  }

  lemma MarksNew(text: string, i: nat, lines: seq<string>, spans: seq<Span>)
    requires AllMark(text, spans, lines) && 1 <= i <= |lines|
    ensures var r := Rendered(i, lines[i - 1]);
      AllMark(text + r, spans + [LineSpan(|text|, i, r)], lines)
  {
    hide ShowsWith;
    var r := Rendered(i, lines[i - 1]);
    MarksMore(text, r, spans, lines);
    RenderedShows(i, lines[i - 1]);
    hide Rendered;
    var s := LineSpan(|text|, i, r);
    assert (text + r)[s.startOffset..s.endOffset] == r;
    assert Marks(text + r, s, lines);
  }

  /** Between the two spans stands what is left out of the first line, and nothing else. */
  ghost predicate Adjoin(text: string, s: Span, t: Span, lines: seq<string>) {
    && s.startOffset <= s.endOffset <= t.startOffset <= |text| && 1 <= s.startLine <= |lines|
    && ShowsWith(text[s.startOffset..s.endOffset], s.startLine, lines[s.startLine - 1], text[s.endOffset..t.startOffset])
  }

  lemma AdjoinMore(text: string, more: string, s: Span, t: Span, lines: seq<string>)
    requires Adjoin(text, s, t, lines)
    ensures Adjoin(text + more, s, t, lines)
  {
    hide ShowsWith;
    assert (text + more)[s.startOffset..s.endOffset] == text[s.startOffset..s.endOffset];
    assert (text + more)[s.endOffset..t.startOffset] == text[s.endOffset..t.startOffset];
  }

  /** From position `at` on, the spans are those of lines `first` to `last`, each adjoining the next. */
  ghost predicate InOrder(text: string, spans: seq<Span>, at: nat, first: nat, last: nat, lines: seq<string>) {
    && first <= last + 1 && at + (last + 1 - first) <= |spans|
    && (forall k :: at <= k < at + (last + 1 - first) ==> spans[k].startLine == first + (k - at))
    && (forall k :: at <= k < at + (last - first) ==> Adjoin(text, spans[k], spans[k + 1], lines))
  }

  lemma InOrderMore(text: string, more: string, spans: seq<Span>, others: seq<Span>, at: nat, first: nat, last: nat,
                    lines: seq<string>)
    requires InOrder(text, spans, at, first, last, lines)
    ensures InOrder(text + more, spans + others, at, first, last, lines)
  {
    hide Adjoin;
    forall k | at <= k < at + (last - first)
      ensures Adjoin(text + more, (spans + others)[k], (spans + others)[k + 1], lines)
    {
      AdjoinMore(text, more, spans[k], spans[k + 1], lines);
    }
  }

  /** The next line follows right behind the ending of the last one. */
  lemma InOrderNext(text: string, e: string, r: string, spans: seq<Span>, at: nat, first: nat, last: nat, s: Span,
                    lines: seq<string>)
    requires InOrder(text, spans, at, first, last, lines) && at + (last + 1 - first) == |spans|
    requires s.startLine == last + 1 && s.startOffset == |text + e|
    requires first <= last ==>
      && spans[|spans| - 1].startOffset <= spans[|spans| - 1].endOffset == |text| && 1 <= last <= |lines|
      && ShowsWith(text[spans[|spans| - 1].startOffset..], last, lines[last - 1], e)
    ensures InOrder(text + e + r, spans + [s], at, first, last + 1, lines)
  {
    var all, now := spans + [s], text + e + r;
    InOrderMore(text, e, spans, [s], at, first, last, lines);
    InOrderMore(text + e, r, spans + [s], [], at, first, last, lines);
    assert all + [] == all;
    hide ShowsWith, Adjoin;
    if first <= last {
      AdjoinNext(text, e, r, spans[|spans| - 1], s, lines);
    }
  }

  lemma AdjoinNext(text: string, e: string, r: string, z: Span, s: Span, lines: seq<string>)
    requires z.startOffset <= z.endOffset == |text| && 1 <= z.startLine <= |lines| && s.startOffset == |text + e|
    requires ShowsWith(text[z.startOffset..], z.startLine, lines[z.startLine - 1], e)
    ensures Adjoin(text + e + r, z, s, lines)
  {
    hide ShowsWith;
    var now := text + e + r;
    assert now[z.startOffset..z.endOffset] == text[z.startOffset..];
    assert now[z.endOffset..s.startOffset] == e;
  }

  /** The lines that have a span. */
  predicate Spanned(spans: seq<Span>, i: int) {
    exists s :: s in spans && s.startLine == i
  }

  lemma SpannedMore(spans: seq<Span>, s: Span, i: int)
    ensures Spanned(spans + [s], i) <==> Spanned(spans, i) || s.startLine == i
  {
  }

  predicate InBounds(blocks: seq<Block>, total: nat) {
    forall b :: b in blocks ==> 1 <= b.start <= b.end <= total
  }

  /** The block's lines are rendered, rather than announced as delivered before. */
  predicate RendersLines(b: Block, multi: bool) {
    !(b.shown && multi)
  }

  predicate Requested(blocks: seq<Block>, multi: bool, i: int) {
    exists b :: b in blocks && RendersLines(b, multi) && b.start <= i <= b.end
  }

  // ----- one block

  /** Lines `first` to `i - 1` stand in order in the text, and `e` is the ending of the last of them. */
  ghost predicate ShownTo(text: string, e: string, spans: seq<Span>, at: nat, first: nat, i: nat, lines: seq<string>) {
    && 1 <= first <= i <= |lines| + 1 && InOrder(text, spans, at, first, i - 1, lines) && |spans| == at + (i - first)
    && (i == first ==> e == "")
    && (i > first ==>
          && spans[|spans| - 1].startOffset <= spans[|spans| - 1].endOffset == |text|
          && ShowsWith(text[spans[|spans| - 1].startOffset..], i - 1, lines[i - 2], e))
  }

  lemma ShownNext(text: string, e: string, spans: seq<Span>, at: nat, first: nat, i: nat, s: Span, lines: seq<string>)
    requires ShownTo(text, e, spans, at, first, i, lines) && i <= |lines|
    requires s == LineSpan(|text + e|, i, Rendered(i, lines[i - 1]))
    ensures ShownTo(text + e + Rendered(i, lines[i - 1]), Ending(Display(i, lines[i - 1])), spans + [s], at, first, i + 1, lines)
  {
    hide ShowsWith, Rendered, InOrder, Ending, Display;
    var r := Rendered(i, lines[i - 1]);
    InOrderNext(text, e, r, spans, at, first, i - 1, s, lines);
    RenderedShows(i, lines[i - 1]);
    assert (text + e + r)[s.startOffset..] == r;
  }

  /** The lines of one block after `base`, with their spans. */
  method RenderLines(lines: seq<string>, b: Block, offset: nat, ghost base: string, before: seq<Span>)
    returns (text: string, spans: seq<Span>)
    requires 1 <= b.start <= b.end <= |lines| && offset == |base| && AllMark(base, before, lines)
    ensures AllMark(base + text, spans, lines)
    ensures forall i :: Spanned(spans, i) <==> Spanned(before, i) || b.start <= i <= b.end
    ensures before <= spans && InOrder(base + text, spans, |before|, b.start, b.end, lines)
    ensures |spans| == |before| + (b.end + 1 - b.start) && |base| <= spans[|before|].startOffset
    ensures spans[|spans| - 1].endOffset == |base + text|
  {
    hide *;
    text, spans := "", before;
    var cursor := offset;
    var i := b.start;
    ghost var shown, e := base, "";
    assert base + text == base;
    DrawnStart(base, before, b, lines);
    while i <= b.end
      invariant b.start <= i <= b.end + 1
      invariant i <= b.end ==> cursor == |base + text|
      invariant Drawn(base, text, before, spans, b, i, shown, e, lines)
    {
      var rendered := Rendered(i, lines[i - 1]);
      var ending := Ending(Display(i, lines[i - 1]));
      var span := LineSpan(cursor, i, rendered);
      DrawnNext(base, text, before, spans, b, i, shown, e, lines);
      shown, e := shown + e + rendered, ending;
      text := text + (rendered + if i < b.end then ending else "");
      spans := spans + [span];
      cursor := cursor + |rendered| + |ending|;
      i := i + 1;
    }
    DrawnAll(base, text, before, spans, b, shown, e, lines);
  }

  /** The loop so far: lines up to `i - 1` of the block are marked, stand in order, and nothing else has a new span. */
  ghost predicate Drawn(base: string, text: string, before: seq<Span>, spans: seq<Span>, b: Block, i: nat,
                        shown: string, e: string, lines: seq<string>) {
    && AllMark(base + text, spans, lines) && before <= spans
    && (forall k :: Spanned(spans, k) <==> Spanned(before, k) || b.start <= k < i)
    && ShownTo(shown, e, spans, |before|, b.start, i, lines)
    && base + text == (if i <= b.end then shown + e else shown)
    && |spans| == |before| + (i - b.start) && (i > b.start ==> |base| <= spans[|before|].startOffset)
    && (i > b.end >= b.start ==> spans[|spans| - 1].endOffset == |base + text|)
  }

  lemma DrawnStart(base: string, before: seq<Span>, b: Block, lines: seq<string>)
    requires AllMark(base, before, lines) && 1 <= b.start <= b.end <= |lines|
    ensures Drawn(base, "", before, before, b, b.start, base, "", lines)
  {
    hide AllMark, Spanned, Adjoin, ShowsWith;
    assert base + "" == base;
  }

  lemma DrawnAll(base: string, text: string, before: seq<Span>, spans: seq<Span>, b: Block, shown: string, e: string,
                 lines: seq<string>)
    requires Drawn(base, text, before, spans, b, b.end + 1, shown, e, lines) && 1 <= b.start <= b.end <= |lines|
    ensures AllMark(base + text, spans, lines) && before <= spans
    ensures forall i :: Spanned(spans, i) <==> Spanned(before, i) || b.start <= i <= b.end
    ensures InOrder(base + text, spans, |before|, b.start, b.end, lines)
    ensures |spans| == |before| + (b.end + 1 - b.start) && |base| <= spans[|before|].startOffset
    ensures spans[|spans| - 1].endOffset == |base + text|
  {
    hide AllMark, Spanned, InOrder, ShowsWith;
  }

  lemma DrawnNext(base: string, text: string, before: seq<Span>, spans: seq<Span>, b: Block, i: nat,
                  shown: string, e: string, lines: seq<string>)
    requires Drawn(base, text, before, spans, b, i, shown, e, lines) && 1 <= b.start <= i <= b.end <= |lines|
    ensures var r, x := Rendered(i, lines[i - 1]), Ending(Display(i, lines[i - 1]));
      var more := text + (r + if i < b.end then x else "");
      && Drawn(base, more, before, spans + [LineSpan(|base + text|, i, r)], b, i + 1, shown + e + r, x, lines)
      && (i < b.end ==> |base + more| == |base + text| + |r| + |x|)
  {
    hide AllMark, Rendered, Spanned, ShownTo, Ending, Display;
    var r, x := Rendered(i, lines[i - 1]), Ending(Display(i, lines[i - 1]));
    var last := if i < b.end then x else "";
    var s := LineSpan(|base + text|, i, r);
    MarksNew(base + text, i, lines, spans);
    MarksMore(base + text + r, last, spans + [s], lines);
    PieceAdded(base, text, r, last);
    forall k {
      SpannedMore(spans, s, k);
    }
    ShownNext(shown, e, spans, |before|, b.start, i, s, lines);
    hide LineSpan;
  }

  lemma PieceAdded(base: string, text: string, r: string, last: string)
    ensures base + (text + (r + last)) == base + text + r + last
    ensures last == "" ==> base + (text + (r + last)) == base + text + r
    ensures |base + (text + (r + last))| == |base + text| + |r| + |last|
  {
  }

  /** Behind the last line of the file stands no note. */
  lemma NothingBelow(b: Block, total: nat)
    ensures MoreBelow(b, total) == "" <==> b.end >= total
  {
  }

  /** How many lines of the block are shown. */
  function LineCount(b: Block, multi: bool): nat {
    if RendersLines(b, multi) && b.start <= b.end then b.end + 1 - b.start else 0
  }

  function LinesShown(blocks: seq<Block>, multi: bool): nat {
    if blocks == [] then 0 else LinesShown(blocks[..|blocks| - 1], multi) + LineCount(blocks[|blocks| - 1], multi)
  }

  /** One block after `base`: its header, its lines and a note of what follows, or that it was delivered before. */
  method RenderBlock(lines: seq<string>, b: Block, multi: bool, offset: nat, ghost base: string, before: seq<Span>)
    returns (body: string, spans: seq<Span>)
    requires 1 <= b.start <= b.end <= |lines| && offset == |base| && AllMark(base, before, lines)
    ensures AllMark(base + body, spans, lines) && before <= spans
    ensures forall i :: Spanned(spans, i) <==> Spanned(before, i) || (RendersLines(b, multi) && b.start <= i <= b.end)
    ensures RendersLines(b, multi) ==> InOrder(base + body, spans, |before|, b.start, b.end, lines)
    ensures |spans| == |before| + LineCount(b, multi) && (RendersLines(b, multi) ==> |base| <= spans[|before|].startOffset)
    ensures RendersLines(b, multi) && b.end == |lines| ==> spans[|spans| - 1].endOffset == |base + body|
  {
    hide AllMark, Spanned, InOrder, Header, Unchanged, MoreBelow;
    if b.shown && multi {
      MarksMore(base, Unchanged(b), before, lines);
      return Unchanged(b), before;
    }
    var header := if multi then Header(b, |lines|) + "\n" else "";
    MarksMore(base, header, before, lines);
    var text;
    text, spans := RenderLines(lines, b, offset + |header|, base + header, before);
    var note := MoreBelow(b, |lines|);
    assert b.end == |lines| ==> note == "" by {
      NothingBelow(b, |lines|);
    }
    MarksMore(base + header + text, note, spans, lines);
    InOrderMore(base + header + text, note, spans, [], |before|, b.start, b.end, lines);
    assert spans + [] == spans;
    body := header + text + note;
    assert base + body == base + header + text + note;
  }

  lemma RequestedMore(blocks: seq<Block>, b: Block, multi: bool, i: int)
    ensures Requested(blocks + [b], multi, i) <==>
      Requested(blocks, multi, i) || (RendersLines(b, multi) && b.start <= i <= b.end)
  {
  }

  lemma Reassociate(a: string, b: string, c: string)
    ensures a + (b + c) == a + b + c
  {
  }

  lemma BeforeLength(rendered: seq<string>)
    ensures |Before(rendered)| == if rendered != [] then |Join(rendered)| + 2 else 0
  {
  }

  /** The spans follow each other in the text. */
  predicate Ascending(spans: seq<Span>) {
    forall k :: 0 < k < |spans| ==> spans[k - 1].endOffset <= spans[k].startOffset
  }

  /** The spans of a block come after those of the blocks before it. */
  ghost predicate BlockInOrder(text: string, spans: seq<Span>, blocks: seq<Block>, n: nat, multi: bool, lines: seq<string>)
    requires n < |blocks|
  {
    RendersLines(blocks[n], multi) && blocks[n].start <= blocks[n].end ==>
      InOrder(text, spans, LinesShown(blocks[..n], multi), blocks[n].start, blocks[n].end, lines)
  }

  ghost predicate EachInOrder(text: string, spans: seq<Span>, blocks: seq<Block>, multi: bool, lines: seq<string>) {
    forall n: nat :: n < |blocks| ==> BlockInOrder(text, spans, blocks, n, multi, lines)
  }

  /** The spans are those of the rendered blocks, block after block and line after line, and no others. */
  ghost predicate BlocksInOrder(text: string, spans: seq<Span>, blocks: seq<Block>, multi: bool, lines: seq<string>) {
    |spans| == LinesShown(blocks, multi) && Ascending(spans) && EachInOrder(text, spans, blocks, multi, lines)
  }

  lemma BlocksMore(text: string, more: string, spans: seq<Span>, others: seq<Span>, blocks: seq<Block>, multi: bool,
                   lines: seq<string>)
    requires EachInOrder(text, spans, blocks, multi, lines)
    ensures EachInOrder(text + more, spans + others, blocks, multi, lines)
  {
    hide InOrder, RendersLines, LinesShown;
    forall n: nat | n < |blocks|
      ensures BlockInOrder(text + more, spans + others, blocks, n, multi, lines)
    {
      assert BlockInOrder(text, spans, blocks, n, multi, lines);
      if RendersLines(blocks[n], multi) && blocks[n].start <= blocks[n].end {
        InOrderMore(text, more, spans, others, LinesShown(blocks[..n], multi), blocks[n].start, blocks[n].end, lines);
      }
    }
  }

  /** What was marked stays marked when the next block begins. */
  lemma Extend(notice: string, rendered: seq<string>, spans: seq<Span>, blocks: seq<Block>, multi: bool,
               lines: seq<string>)
    requires AllMark(notice + Join(rendered), spans, lines)
    requires BlocksInOrder(notice + Join(rendered), spans, blocks, multi, lines)
    ensures AllMark(notice + Before(rendered), spans, lines)
    ensures BlocksInOrder(notice + Before(rendered), spans, blocks, multi, lines)
  {
    var gap := if rendered == [] then "" else "\n\n";
    assert Before(rendered) == Join(rendered) + gap;
    Reassociate(notice, Join(rendered), gap);
    hide Join, Before, AllMark, EachInOrder, LinesShown, Ascending;
    MarksMore(notice + Join(rendered), gap, spans, lines);
    BlocksMore(notice + Join(rendered), gap, spans, [], blocks, multi, lines);
    assert spans + [] == spans;
  }

  /** One more block, whose lines stand in order unless it was announced only. */
  lemma BlocksAdd(text: string, spans: seq<Span>, blocks: seq<Block>, b: Block, multi: bool, lines: seq<string>)
    requires EachInOrder(text, spans, blocks, multi, lines)
    requires RendersLines(b, multi) ==> InOrder(text, spans, LinesShown(blocks, multi), b.start, b.end, lines)
    ensures EachInOrder(text, spans, blocks + [b], multi, lines)
    ensures LinesShown(blocks + [b], multi) == LinesShown(blocks, multi) + LineCount(b, multi)
  {
    assert (blocks + [b])[..|blocks|] == blocks;
    assert LinesShown(blocks + [b], multi) == LinesShown(blocks, multi) + LineCount(b, multi);
    hide InOrder, RendersLines, LinesShown;
    forall n: nat | n < |blocks + [b]|
      ensures BlockInOrder(text, spans, blocks + [b], n, multi, lines)
    {
      if n < |blocks| {
        assert BlockInOrder(text, spans, blocks, n, multi, lines);
        assert (blocks + [b])[..n] == blocks[..n];
      }
    }
  }

  /** A block's spans behind those before it. */
  lemma AscendingMore(base: string, text: string, before: seq<Span>, spans: seq<Span>, first: nat, last: nat, lines: seq<string>)
    requires AllMark(base, before, lines) && Ascending(before) && before <= spans
    requires first <= last ==> InOrder(text, spans, |before|, first, last, lines) && |base| <= spans[|before|].startOffset
    requires first <= last + 1 && |spans| == |before| + (last + 1 - first)
    ensures Ascending(spans)
  {
    hide ShowsLine, ShowsWith;
    forall k | 0 < k < |spans|
      ensures spans[k - 1].endOffset <= spans[k].startOffset
    {
      if k < |before| {
        assert spans[k - 1] == before[k - 1] && spans[k] == before[k];
      } else if k == |before| {
        assert spans[k - 1] == before[k - 1] && before[k - 1] in before;
        assert Marks(base, before[k - 1], lines);
      } else {
        assert Adjoin(text, spans[k - 1], spans[k - 1 + 1], lines);
      }
    }
  }

  /** The rendered content and its spans. */
  method Render(lines: seq<string>, blocks: seq<Block>, multi: bool, notice: string, tail: string)
    returns (content: string, spans: seq<Span>)
    requires InBounds(blocks, |lines|)
    ensures AllMark(content, spans, lines)
    ensures forall i :: Spanned(spans, i) <==> Requested(blocks, multi, i)
    ensures BlocksInOrder(content, spans, blocks, multi, lines)
  {
    var rendered: seq<string> := [];
    spans := [];
    for n := 0 to |blocks|
      invariant AllMark(notice + Join(rendered), spans, lines)
      invariant forall i :: Spanned(spans, i) <==> Requested(blocks[..n], multi, i)
      invariant BlocksInOrder(notice + Join(rendered), spans, blocks[..n], multi, lines)
    {
      var b := blocks[n];
      assert b in blocks;
      assert blocks[..n + 1] == blocks[..n] + [b];
      hide *;
      var cursor := |notice| + if rendered != [] then |Join(rendered)| + 2 else 0;
      BeforeLength(rendered);
      Extend(notice, rendered, spans, blocks[..n], multi, lines);
      var body, more := RenderBlock(lines, b, multi, cursor, notice + Before(rendered), spans);
      BlockDone(notice + Before(rendered), body, spans, more, blocks[..n], b, multi, lines);
      JoinMore(rendered, body);
      Reassociate(notice, Before(rendered), body);
      rendered, spans := rendered + [body], more;
    }
    hide *;
    assert blocks[..|blocks|] == blocks;
    MarksMore(notice + Join(rendered), tail, spans, lines);
    EndWith(notice + Join(rendered), tail, spans, blocks, multi, lines);
    content := notice + Join(rendered) + tail;
  }

  lemma EndWith(text: string, tail: string, spans: seq<Span>, blocks: seq<Block>, multi: bool, lines: seq<string>)
    requires BlocksInOrder(text, spans, blocks, multi, lines)
    ensures BlocksInOrder(text + tail, spans, blocks, multi, lines)
  {
    hide EachInOrder, LinesShown, Ascending;
    BlocksMore(text, tail, spans, [], blocks, multi, lines);
    assert spans + [] == spans;
  }

  /** A block was rendered behind what stood there. */
  lemma BlockDone(base: string, body: string, before: seq<Span>, spans: seq<Span>, blocks: seq<Block>, b: Block,
                  multi: bool, lines: seq<string>)
    requires BlocksInOrder(base, before, blocks, multi, lines) && before <= spans && b.start <= b.end
    requires AllMark(base, before, lines) && |spans| == |before| + LineCount(b, multi)
    requires RendersLines(b, multi) ==>
      InOrder(base + body, spans, |before|, b.start, b.end, lines) && |base| <= spans[|before|].startOffset
    requires forall i :: Spanned(before, i) <==> Requested(blocks, multi, i)
    requires forall i :: Spanned(spans, i) <==> Spanned(before, i) || (RendersLines(b, multi) && b.start <= i <= b.end)
    ensures BlocksInOrder(base + body, spans, blocks + [b], multi, lines)
    ensures forall i :: Spanned(spans, i) <==> Requested(blocks + [b], multi, i)
  {
    hide InOrder, EachInOrder, LinesShown, Ascending, RendersLines, Spanned, Requested, AllMark;
    assert spans == before + spans[|before|..];
    BlocksMore(base, body, before, spans[|before|..], blocks, multi, lines);
    BlocksAdd(base + body, spans, blocks, b, multi, lines);
    if RendersLines(b, multi) {
      AscendingMore(base, base + body, before, spans, b.start, b.end, lines);
    } else {
      assert spans == before;
    }
    forall i {
      RequestedMore(blocks, b, multi, i);
    }
  }

  // ----- the manifest of a read

  function ReadProof(fileKey: string, digest: string, total: nat, spans: seq<Span>): Manifest {
    Manifest(fileKey, digest, total, spans, false, false, "read", "", [], [])
  }

  /** A rendered read has the form for which paging is exact. */
  lemma RenderedIsReadManifest(content: string, spans: seq<Span>, lines: seq<string>, fileKey: string, digest: string)
    requires AllMark(content, spans, lines) && fileKey != "" && digest != ""
    ensures ReadManifest(ReadProof(fileKey, digest, |lines|, spans))
    ensures WellFormed(ReadProof(fileKey, digest, |lines|, spans))
  {
  }

  /** One read of the file: what was asked for and what was rendered. */
  datatype Read = Read(blocks: seq<Block>, multi: bool, content: string, spans: seq<Span>)

  ghost predicate ReadOf(lines: seq<string>, r: Read) {
    AllMark(r.content, r.spans, lines) && forall i :: Spanned(r.spans, i) <==> Requested(r.blocks, r.multi, i)
  }

  function ProofOf(v: Version, total: nat, r: Read): Manifest {
    ReadProof(v.fileKey, v.digest, total, r.spans)
  }

  /** The whole text of the read was delivered in visible pages. */
  ghost predicate InFull(v: Version, total: nat, r: Read, pages: seq<Page>, visible: Option<set<string>>) {
    forall o :: 0 <= o < |r.content| ==> OffsetShown(ProofOf(v, total, r), pages, visible, o)
  }

  lemma InFullIsTiled(v: Version, lines: seq<string>, r: Read, pages: seq<Page>, visible: Option<set<string>>)
    requires ReadOf(lines, r) && InFull(v, |lines|, r, pages, visible)
    ensures Tiled(ProofOf(v, |lines|, r), pages, visible)
  {
    WithinContent(r.content, r.spans, lines);
  }

  /** Any number of reads of a version, each delivered in full in pages however cut and among deliveries of
      other files, credit exactly the lines they were asked for. */
  lemma ReadsCreditTheirLines(v: Version, start: Leases, lines: seq<string>, all: seq<Read>, pages: seq<Page>,
                              visible: Option<set<string>>, line: int)
    requires Orderly(v, start, pages) && forall rid :: !Had(v, start, rid)
    requires v.fileKey != "" && v.digest != ""
    requires forall r :: r in all ==> ReadOf(lines, r) && InFull(v, |lines|, r, pages, visible)
    requires forall p :: p in pages && PageOf(v, p) ==> exists r :: r in all && p.manifest == ProofOf(v, |lines|, r)
    ensures GrantCovers(Deliver(start, pages), visible, v.fileKey, v.digest, line) <==>
      exists r :: r in all && Requested(r.blocks, r.multi, line)
  {
    forall r | r in all
      ensures Tiled(ProofOf(v, |lines|, r), pages, visible) && ReadManifest(ProofOf(v, |lines|, r))
    {
      InFullIsTiled(v, lines, r, pages, visible);
      RenderedIsReadManifest(r.content, r.spans, lines, v.fileKey, v.digest);
    }
    hide ReadManifest, AllMark, Requested, GrantCovers, Deliver, InFull, Tiled, Orderly;
    TiledPagesCoverAll(v, start, pages, visible, line);
    if r :| r in all && Requested(r.blocks, r.multi, line) {
      assert Spanned(r.spans, line);
      var s :| s in r.spans && s.startLine == line;
      TiledReadIsCovered(v, start, ProofOf(v, |lines|, r), pages, visible, s);
    }
    if GrantCovers(Deliver(start, pages), visible, v.fileKey, v.digest, line) {
      var p, s :| p in pages && PageOf(v, p) && s in p.manifest.spans && s.startLine == line;
      var r :| r in all && p.manifest == ProofOf(v, |lines|, r);
      assert Spanned(r.spans, line);
    }
  }

  lemma {:induction false} WithinContent(content: string, spans: seq<Span>, lines: seq<string>)
    requires AllMark(content, spans, lines)
    ensures ProofEnd(spans) <= |content|
    decreases |spans|
  {
    if spans != [] {
      assert Marks(content, spans[0], lines);
      WithinContent(content, spans[1..], lines);
    }
  }
}

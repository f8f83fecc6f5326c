/** `reverse_diff` on texts: escaped newlines, the split into lines and the join, and the
    main theorem for the texts that go in and come out. */
module DiffStrings {
  import opened Optional
  import opened DiffText
  import opened HunkReversal
  import opened DiffReversal
  import opened Seqs

  // ---------------------------------------------------------------- splitting and joining

  predicate HasBreak(s: string) {
    exists i :: 0 <= i < |s| && s[i] == '\n'
  }

  predicate OneLiners(lines: seq<string>) {
    forall k :: 0 <= k < |lines| ==> !HasBreak(lines[k])
  }

  /** `text.split('\n')`. */
  function Split(text: string): (lines: seq<string>)
    ensures lines != []
  {
    if text == "" then [""]
    else
      var rest := Split(text[1..]);
      if text[0] == '\n' then [""] + rest else [[text[0]] + rest[0]] + rest[1..]
  }

  /** `'\n'.join(lines)`. */
  function Join(lines: seq<string>): string {
    if lines == [] then ""
    else if |lines| == 1 then lines[0]
    else lines[0] + (['\n'] + Join(lines[1..]))
  }

  lemma {:induction false} JoinSplit(text: string)
    ensures Join(Split(text)) == text
    ensures OneLiners(Split(text))
  {
    if text != "" {
      var rest := Split(text[1..]);
      JoinSplit(text[1..]);
      if text[0] == '\n' {
        ConsRest("", rest);
        assert Join([""] + rest) == "" + (['\n'] + text[1..]);
      } else {
        JoinLonger(text[0], rest);
        LongerOneLiners(text[0], rest);
      }
      assert text == [text[0]] + text[1..];
    }
  }

  lemma JoinLonger(c: char, lines: seq<string>)
    requires lines != []
    ensures Join([[c] + lines[0]] + lines[1..]) == [c] + Join(lines)
  {
    ConsRest([c] + lines[0], lines[1..]);
    if |lines| > 1 {
      Assoc([c], lines[0], ['\n'] + Join(lines[1..]));
    }
  }

  lemma LongerOneLiners(c: char, lines: seq<string>)
    requires lines != [] && c != '\n' && OneLiners(lines)
    ensures OneLiners([[c] + lines[0]] + lines[1..])
  {
    assert forall i :: 0 < i < |[c] + lines[0]| ==> ([c] + lines[0])[i] == lines[0][i - 1];
  }

  lemma {:induction false} SplitLine(line: string, rest: string)
    requires !HasBreak(line)
    ensures Split(line + (['\n'] + rest)) == [line] + Split(rest)
  {
    if line == "" {
      Whole(['\n'] + rest);
      ConsRest('\n', rest);
    } else {
      var more := ['\n'] + rest;
      assert (line + more)[1..] == line[1..] + more;
      SplitLine(line[1..], rest);
      ConsRest(line[1..], Split(rest));
      assert [line[0]] + line[1..] == line;
    }
  }

  lemma {:induction false} SplitLast(line: string)
    requires !HasBreak(line)
    ensures Split(line) == [line]
  {
    if line != "" {
      SplitLast(line[1..]);
      assert [line[0]] + line[1..] == line;
      assert [line[1..]][1..] == [];
    }
  }

  lemma {:induction false} SplitJoin(lines: seq<string>)
    requires lines != [] && OneLiners(lines)
    ensures Split(Join(lines)) == lines
  {
    if |lines| == 1 {
      SplitLast(lines[0]);
    } else {
      SplitJoin(lines[1..]);
      SplitLine(lines[0], Join(lines[1..]));
    }
  }

  // ---------------------------------------------------------------- escaped newlines

  predicate IsQuote(c: char) {
    c == '\'' || c == '"'
  }

  /** `text.strip('\'\"')`. */
  function Strip(text: string): string
    decreases |text|
  {
    if text == "" then text
    else if IsQuote(text[0]) then Strip(text[1..])
    else if IsQuote(text[|text| - 1]) then Strip(text[..|text| - 1])
    else text
  }

  predicate HasEscape(text: string) {
    exists i :: 0 <= i < |text| - 1 && text[i] == '\\' && text[i + 1] == 'n'
  }

  /** The text whose lines are reversed; `unescape` stands for the decoding of escapes,
      which may raise. */
  function Decoded(text: string, unescape: string -> Option<string>): Option<string> {
    if HasEscape(text) && !HasBreak(Strip(text)) then unescape(Strip(text)) else Some(text)
  }

  lemma {:induction false} StripKeepsBreaks(text: string)
    ensures HasBreak(Strip(text)) <==> HasBreak(text)
    decreases |text|
  {
    if text == "" {
    } else if IsQuote(text[0]) {
      StripKeepsBreaks(text[1..]);
      assert forall i :: 0 < i < |text| ==> text[i] == text[1..][i - 1];
    } else if IsQuote(text[|text| - 1]) {
      StripKeepsBreaks(text[..|text| - 1]);
    }
  }

  predicate OnlyQuotes(s: string) {
    forall i :: 0 <= i < |s| ==> IsQuote(s[i])
  }

  /** An escaped newline is a backslash and an n, one right after the other. */
  lemma EscapeIs(text: string)
    ensures HasEscape(text) <==> exists a: string, b: string :: text == a + (['\\', 'n'] + b)
    ensures forall c :: IsQuote(c) <==> c == '"' || c == '\''
  {
    if HasEscape(text) {
      var i :| 0 <= i < |text| - 1 && text[i] == '\\' && text[i + 1] == 'n';
      assert text == text[..i] + (['\\', 'n'] + text[i + 2..]);
    }
    forall a: string, b: string | text == a + (['\\', 'n'] + b)
      ensures HasEscape(text)
    {
      assert text[|a|] == '\\' && text[|a| + 1] == 'n';
    }
  }

  /** Stripping takes away quotes at both ends, and all of them. */
  lemma {:induction false} StripParts(text: string) returns (left: string, right: string)
    ensures text == left + Strip(text) + right && OnlyQuotes(left) && OnlyQuotes(right)
    ensures var s := Strip(text); s != "" ==> !IsQuote(s[0]) && !IsQuote(s[|s| - 1])
    decreases |text|
  {
    left, right := "", "";
    if text == "" {
    } else if IsQuote(text[0]) {
      left, right := StripParts(text[1..]);
      Assoc([text[0]], left, Strip(text));
      Assoc([text[0]], left + Strip(text), right);
      Cut(text, 1);
      left := [text[0]] + left;
    } else if IsQuote(text[|text| - 1]) {
      var n := |text| - 1;
      left, right := StripParts(text[..n]);
      QuoteBehind(text, n, left + Strip(text[..n]), right);
      right := right + text[n..];
    } else {
      Whole(text);
    }
  }

  lemma QuoteBehind(text: string, n: nat, front: string, right: string)
    requires n == |text| - 1 && IsQuote(text[n]) && OnlyQuotes(right)
    requires text[..n] == front + right
    ensures text == front + (right + text[n..]) && OnlyQuotes(right + text[n..])
  {
    Cut(text, n);
    Assoc(front, right, text[n..]);
  }

  /** A text is taken as it is exactly when it has a newline, or no escaped one; any other
      is decoded. */
  lemma TakenAsItIs(text: string, unescape: string -> Option<string>)
    ensures Decoded(text, unescape)
         == if HasBreak(text) || !HasEscape(text) then Some(text) else unescape(Strip(text))
  {
    StripKeepsBreaks(text);
  }

  function ReversedText(text: string): string {
    Join(ReversedDiff(Split(text)))
  }

  /** `reverse_diff`; None stands for the exception of the decoding. */
  method ReverseDiffText(diffText: string, unescape: string -> Option<string>) returns (r: Option<string>)
    ensures r.Some? <==> Decoded(diffText, unescape).Some?
    ensures r.Some? ==> r.value == ReversedText(Decoded(diffText, unescape).value)
  {
    var text := diffText;
    if HasEscape(diffText) && !HasBreak(Strip(diffText)) {
      var decoded := unescape(Strip(diffText));
      if decoded.None? {
        return None;
      }
      text := decoded.value;
    }
    var result := ReverseDiff(Split(text));
    return Some(Join(result));
  }

  // ---------------------------------------------------------------- no line gains a newline

  lemma ConcatOneLine(a: string, b: string)
    requires !HasBreak(a) && !HasBreak(b)
    ensures !HasBreak(a + b)
  {
  }

  lemma RestOneLine(s: string, n: nat)
    requires !HasBreak(s) && n <= |s|
    ensures !HasBreak(s[n..]) && !HasBreak(s[..n])
  {
  }

  lemma RangeOneLine(r: Range)
    requires r.Valid()
    ensures !HasBreak(r.Render())
  {
    var comma := [','];
    assert r.count != "" ==> r.Render() == r.start + (comma + r.count);
  }

  lemma HeaderOneLine(line: string)
    requires !HasBreak(line)
    ensures !HasBreak(ReverseHeader(line))
  {
    match ParseHeader(line)
    case None =>
    case Some(h) =>
      HeaderRest(line);
      RenderOneLine(h.Swap());
  }

  lemma RenderOneLine(h: Header)
    requires h.Valid() && !HasBreak(h.rest)
    ensures !HasBreak(h.Render())
  {
    RangeOneLine(h.minus);
    RangeOneLine(h.plus);
    RenderNested(h);
    SixOneLine("@@ -", h.minus.Render(), " +", h.plus.Render(), " @@", h.rest);
  }

  lemma SixOneLine(a: string, b: string, c: string, d: string, e: string, f: string)
    requires !HasBreak(a) && !HasBreak(b) && !HasBreak(c) && !HasBreak(d) && !HasBreak(e) && !HasBreak(f)
    ensures !HasBreak(a + (b + (c + (d + (e + f)))))
  {
    ConcatOneLine(e, f);
    ConcatOneLine(d, e + f);
    ConcatOneLine(c, d + (e + f));
    ConcatOneLine(b, c + (d + (e + f)));
    ConcatOneLine(a, b + (c + (d + (e + f))));
  }

  lemma ExpectOneLine(s: string, token: string)
    requires !HasBreak(s) && Expect(s, token).Some?
    ensures !HasBreak(Expect(s, token).value)
  {
    RestOneLine(s, |token|);
  }

  lemma ParseRangeRest(s: string)
    requires !HasBreak(s) && ParseRange(s).Some?
    ensures !HasBreak(ParseRange(s).value.1)
  {
  }

  lemma HeaderRest(line: string)
    requires !HasBreak(line) && ParseHeader(line).Some?
    ensures !HasBreak(ParseHeader(line).value.rest)
  {
    ExpectOneLine(line, "@@ -");
    var s := Expect(line, "@@ -").value;
    ParseRangeRest(s);
    var (minus, t) := ParseRange(s).value;
    PlusRest(minus, t);
  }

  lemma PlusRest(minus: Range, s: string)
    requires minus.Valid() && !HasBreak(s) && ParsePlus(minus, s).Some?
    ensures !HasBreak(ParsePlus(minus, s).value.rest)
  {
    ExpectOneLine(s, " +");
    var t := Expect(s, " +").value;
    ParseRangeRest(t);
    ExpectOneLine(ParseRange(t).value.1, " @@");
  }

  lemma IndexOneLine(line: string)
    requires IsIndexLine(line) && !HasBreak(line)
    ensures !HasBreak(ReverseIndex(line))
  {
    match ParseIndex(line)
    case None =>
    case Some(b) =>
      ParseIndexParts(line);
      IndexRest(b);
      ConcatOneLine(b.minus, b.rest);
      ConcatOneLine("..", b.minus + b.rest);
      ConcatOneLine(b.plus, ".." + (b.minus + b.rest));
      ConcatOneLine("index ", b.plus + (".." + (b.minus + b.rest)));
  }

  lemma IndexRest(b: Blobs)
    requires b.Valid() && !HasBreak(b.Render())
    ensures !HasBreak(b.minus) && !HasBreak(b.plus) && !HasBreak(b.rest)
  {
    var tail := ".." + (b.plus + b.rest);
    LaterPart("index ", b.minus + tail);
    LaterPart(b.minus, tail);
    LaterPart("..", b.plus + b.rest);
    LaterPart(b.plus, b.rest);
  }

  lemma LaterPart(a: string, b: string)
    requires !HasBreak(a + b)
    ensures !HasBreak(b)
  {
    Parts(a, b);
    RestOneLine(a + b, |a|);
  }

  lemma {:induction false} RunOneLiners(body: seq<string>, sign: char)
    requires OneLiners(body)
    ensures OneLiners(TakeRun(body, sign).texts) && OneLiners(TakeRun(body, sign).rest)
  {
    if body != [] && Starts(body[0], sign) {
      RunOneLiners(body[Width(body)..], sign);
      RestOneLine(body[0], 1);
    }
  }

  lemma {:induction false} EmitOneLiners(sign: char, texts: seq<string>, marked: bool)
    requires OneLiners(texts) && sign != '\n'
    ensures OneLiners(Emit(sign, texts, marked))
  {
    if texts != [] {
      EmitOneLiners(sign, texts[1..], marked);
      ConcatOneLine([sign], texts[0]);
      assert Emit(sign, texts, marked) == [[sign] + texts[0]] + Emit(sign, texts[1..], marked);
    }
  }

  lemma {:induction false} ReversedOneLiners(body: seq<string>)
    requires OneLiners(body)
    ensures OneLiners(Reversed(body))
    decreases |body|
  {
    if body == [] {
    } else if IsChange(body[0]) {
      var minus := TakeRun(body, '-');
      var plus := TakeRun(minus.rest, '+');
      RunOneLiners(body, '-');
      RunOneLiners(minus.rest, '+');
      EmitOneLiners('-', plus.texts, plus.marked);
      EmitOneLiners('+', minus.texts, minus.marked);
      ReversedOneLiners(plus.rest);
    } else {
      ReversedOneLiners(body[1..]);
    }
  }

  lemma {:induction false} DiffOneLiners(lines: seq<string>)
    requires OneLiners(lines)
    ensures OneLiners(ReversedDiff(lines))
    ensures lines != [] ==> ReversedDiff(lines) != []
    decreases |lines|
  {
    if lines == [] {
    } else if IsIndexLine(lines[0]) {
      IndexOneLine(lines[0]);
      DiffOneLiners(lines[1..]);
    } else if IsHunkLine(lines[0]) {
      var tail := lines[1..];
      var n := BodyLength(tail);
      HeaderOneLine(lines[0]);
      ReversedOneLiners(tail[..n]);
      DiffOneLiners(tail[n..]);
    } else {
      DiffOneLiners(lines[1..]);
    }
  }

  // ---------------------------------------------------------------- the last line

  predicate EndsFull(lines: seq<string>) {
    lines != [] && lines[|lines| - 1] != ""
  }

  lemma {:induction false} RunRestEnds(body: seq<string>, sign: char)
    requires TakeRun(body, sign).rest != []
    ensures EndsFull(TakeRun(body, sign).rest) <==> EndsFull(body)
  {
    if body != [] && Starts(body[0], sign) {
      RunRestEnds(body[Width(body)..], sign);
    }
  }

  lemma AppendEnds(a: seq<string>, b: seq<string>)
    requires EndsFull(b)
    ensures EndsFull(a + b)
  {
  }

  lemma GroupEnds(body: seq<string>)
    requires body != [] && IsChange(body[0])
    ensures var minus := TakeRun(body, '-'); var plus := TakeRun(minus.rest, '+');
      EndsFull(Emit('-', plus.texts, plus.marked) + Emit('+', minus.texts, minus.marked))
  {
    var minus := TakeRun(body, '-');
    var plus := TakeRun(minus.rest, '+');
    EmitEnds('-', plus.texts, plus.marked);
    EmitEnds('+', minus.texts, minus.marked);
    if minus.texts == [] {
      assert minus.rest == body && Emit('+', minus.texts, minus.marked) == [];
      Whole(Emit('-', plus.texts, plus.marked));
    }
  }

  lemma EmitEnds(sign: char, texts: seq<string>, marked: bool)
    ensures texts != [] ==> EndsFull(Emit(sign, texts, marked))
  {
    var lines := Emit(sign, texts, marked);
    EmitLines(sign, texts, marked);
    assert lines != [] ==> lines[|lines| - 1] in lines;
  }

  lemma {:induction false} ReversedEnds(body: seq<string>)
    requires EndsFull(body)
    ensures EndsFull(Reversed(body))
    decreases |body|
  {
    if IsChange(body[0]) {
      var minus := TakeRun(body, '-');
      var plus := TakeRun(minus.rest, '+');
      GroupEnds(body);
      if plus.rest != [] {
        assert minus.rest != [];
        RunRestEnds(body, '-');
        RunRestEnds(minus.rest, '+');
        ReversedEnds(plus.rest);
        AppendEnds(Emit('-', plus.texts, plus.marked) + Emit('+', minus.texts, minus.marked), Reversed(plus.rest));
      }
    } else if |body| > 1 {
      ReversedEnds(body[1..]);
      AppendEnds([body[0]], Reversed(body[1..]));
    }
  }

  lemma {:induction false} DiffEnds(lines: seq<string>)
    requires EndsFull(lines)
    ensures EndsFull(ReversedDiff(lines))
    decreases |lines|
  {
    hide ReverseIndex, ReverseHeader, Reversed;
    var header, tail := lines[0], lines[1..];
    if IsHunkLine(header) {
      assert lines == [header] + tail;
      HunkReversed(header, tail);
      var n := BodyLength(tail);
      if n < |tail| {
        DiffEnds(tail[n..]);
        AppendEnds([ReverseHeader(header)] + Reversed(tail[..n]), ReversedDiff(tail[n..]));
      } else {
        LastHunkEnds(header, tail);
      }
    } else {
      var line := if IsIndexLine(header) then ReverseIndex(header) else header;
      assert ReversedDiff(lines) == [line] + ReversedDiff(tail);
      if tail != [] {
        DiffEnds(tail);
        AppendEnds([line], ReversedDiff(tail));
      } else {
        LastLineEnds(header, line);
      }
    }
  }

  lemma LastLineEnds(header: string, line: string)
    requires header != "" && line == if IsIndexLine(header) then ReverseIndex(header) else header
    ensures EndsFull([line] + ReversedDiff([]))
  {
    hide ParseIndex;
    Whole([line]);
    assert ReversedDiff([]) == [];
  }

  lemma LastHunkEnds(header: string, tail: seq<string>)
    requires IsHunkLine(header) && (tail == [] || EndsFull(tail))
    ensures EndsFull(([ReverseHeader(header)] + Reversed(tail[..|tail|])) + ReversedDiff(tail[|tail|..]))
  {
    Whole(tail);
    assert ReversedDiff(tail[|tail|..]) == [];
    var h := [ReverseHeader(header)];
    HeaderStaysHeader(header, []);
    if tail == [] {
      assert h + Reversed(tail) == h;
    } else {
      ReversedEnds(tail);
      AppendEnds(h, Reversed(tail));
    }
    Whole(h + Reversed(tail));
  }

  // ---------------------------------------------------------------- the main theorem

  /** The lines of a diff text: a newline at its end ends the last line. */
  function LinesOf(text: string): seq<string> {
    Trimmed(Split(text))
  }

  function Trimmed(lines: seq<string>): seq<string>
    requires lines != []
  {
    if EndsFull(lines) then lines else lines[..|lines| - 1]
  }

  lemma TrimmedReversed(lines: seq<string>)
    requires lines != [] && ReversedDiff(lines) != []
    ensures Trimmed(ReversedDiff(lines)) == ReversedDiff(Trimmed(lines))
    ensures EndsFull(ReversedDiff(lines)) <==> EndsFull(lines)
  {
    if EndsFull(lines) {
      DiffEnds(lines);
    } else {
      var front := Trimmed(lines);
      EmptyLast(lines);
      FinalNewline(front);
      EndsEmpty(ReversedDiff(front));
    }
  }

  lemma EmptyLast(lines: seq<string>)
    requires lines != [] && !EndsFull(lines)
    ensures lines == Trimmed(lines) + [""]
  {
  }

  lemma EndsEmpty(front: seq<string>)
    ensures !EndsFull(front + [""]) && Trimmed(front + [""]) == front
  {
  }

  lemma ReversedSplit(text: string)
    ensures Split(ReversedText(text)) == ReversedDiff(Split(text))
  {
    JoinSplit(text);
    DiffOneLiners(Split(text));
    SplitJoin(ReversedDiff(Split(text)));
  }

  /** The lines of the reversed text are the reversed lines, and it ends in a newline, or
      is empty, exactly when the text is. */
  lemma ReversedTextLines(text: string)
    ensures LinesOf(ReversedText(text)) == ReversedDiff(LinesOf(text))
    ensures EndsFull(Split(ReversedText(text))) <==> EndsFull(Split(text))
  {
    ReversedSplit(text);
    TrimmedReversed(Split(text));
  }

  /** The main theorem for texts. What `reverse_diff` makes of a well-formed diff text, with
      or without a newline at its end, is well formed, and it turns one tree into another
      exactly when the text it was given turns the second tree into the first. */
  lemma TextReversalUndoes(text: string, before: map<string, File>, after: map<string, File>)
    requires ValidDiff(LinesOf(text))
    ensures ValidDiff(LinesOf(ReversedText(text)))
    ensures Turns(LinesOf(text), before, after) <==> Turns(LinesOf(ReversedText(text)), after, before)
  {
    ReversedTextLines(text);
    ReversalUndoes(LinesOf(text), before, after);
  }
}

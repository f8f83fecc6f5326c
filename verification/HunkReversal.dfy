/** Reversal of the body of one hunk (`reverse_hunk`), and what it does to the two
    versions of the file that the body describes. */
module HunkReversal {
  import opened DiffText
  import opened Optional
  import opened Seqs

  const NO_NEWLINE := "\\ No newline at end of file"

  predicate IsChange(line: string) {
    Starts(line, '-') || Starts(line, '+')
  }

  function Opposite(sign: char): char {
    if sign == '-' then '+' else '-'
  }

  // ---------------------------------------------------------------- the algorithm

  /** What one of the collecting loops gathers: the texts of the consecutive lines with
      one sign, whether a no-newline marker followed any of them, and the lines left. */
  datatype Run = Run(texts: seq<string>, marked: bool, rest: seq<string>)

  /** Lines the collecting loop steps over for one line of its run. */
  function Width(body: seq<string>): (n: nat)
    requires body != []
    ensures 1 <= n <= |body|
  {
    if |body| > 1 && IsMarker(body[1]) then 2 else 1
  }

  function TakeRun(body: seq<string>, sign: char): (r: Run)
    ensures |r.rest| <= |body|
    ensures body != [] && Starts(body[0], sign) <==> r.texts != []
    ensures r.texts != [] ==> |r.rest| < |body|
    ensures r.texts == [] ==> r == Run([], false, body)
    ensures r.rest == [] || !Starts(r.rest[0], sign)
  {
    if body == [] || !Starts(body[0], sign) then Run([], false, body)
    else
      var r := TakeRun(body[Width(body)..], sign);
      Run([body[0][1..]] + r.texts, Width(body) == 2 || r.marked, r.rest)
  }

  function Prefixed(sign: char, texts: seq<string>): (lines: seq<string>)
    ensures |lines| == |texts|
  {
    if texts == [] then [] else [[sign] + texts[0]] + Prefixed(sign, texts[1..])
  }

  lemma {:induction false} PrefixedAt(sign: char, texts: seq<string>, i: nat)
    requires i < |texts|
    ensures Prefixed(sign, texts)[i] == [sign] + texts[i]
  {
    if i > 0 {
      PrefixedAt(sign, texts[1..], i - 1);
    }
  }

  /** A run written back: its lines under a sign, then one marker if it had any. */
  function Emit(sign: char, texts: seq<string>, marked: bool): seq<string> {
    Prefixed(sign, texts) + if marked then [NO_NEWLINE] else []
  }

  /** The reversed body: each change group, a run of `-` and then a run of `+`, comes
      out with its runs exchanged; every other line is kept. */
  function Reversed(body: seq<string>): seq<string>
    decreases |body|
  {
    if body == [] then []
    else if IsChange(body[0]) then
      var minus := TakeRun(body, '-');
      var plus := TakeRun(minus.rest, '+');
      Emit('-', plus.texts, plus.marked) + Emit('+', minus.texts, minus.marked) + Reversed(plus.rest)
    else [body[0]] + Reversed(body[1..])
  }

  /** The collecting loop, from line `start` on. */
  method CollectRun(lines: seq<string>, start: nat, sign: char)
    returns (texts: seq<string>, marked: bool, next: nat)
    requires start <= |lines|
    ensures start <= next <= |lines|
    ensures TakeRun(lines[start..], sign) == Run(texts, marked, lines[next..])
  {
    texts, marked, next := [], false, start;
    ghost var whole := TakeRun(lines[start..], sign);
    Whole(whole.texts);
    while next < |lines| && Starts(lines[next], sign)
      invariant start <= next <= |lines|
      invariant Continues(whole, texts, marked, TakeRun(lines[next..], sign))
    {
      CollectStep(lines, next, sign, whole, texts, marked);
      texts := texts + [lines[next][1..]];
      next := next + 1;
      if next < |lines| && IsMarker(lines[next]) {
        marked := true;
        next := next + 1;
      }
    }
    Whole(texts);
  }

  /** The run `whole` consists of what was collected so far and then the run `left`. */
  ghost predicate Continues(whole: Run, texts: seq<string>, marked: bool, left: Run) {
    whole == Run(texts + left.texts, marked || left.marked, left.rest)
  }

  lemma CollectStep(lines: seq<string>, next: nat, sign: char, whole: Run, texts: seq<string>, marked: bool)
    requires next < |lines| && Starts(lines[next], sign)
    requires Continues(whole, texts, marked, TakeRun(lines[next..], sign))
    ensures
      var two := next + 1 < |lines| && IsMarker(lines[next + 1]);
      Continues(whole, texts + [lines[next][1..]], marked || two,
                TakeRun(lines[if two then next + 2 else next + 1..], sign))
  {
    var body := lines[next..];
    var r := TakeRun(body[Width(body)..], sign);
    assert body[Width(body)..] == lines[next + Width(body)..];
    assert TakeRun(body, sign).texts == [body[0][1..]] + r.texts;
    assert texts + ([body[0][1..]] + r.texts) == (texts + [body[0][1..]]) + r.texts;
  }

  /** `reverse_hunk`. */
  method ReverseHunk(hunkLines: seq<string>) returns (result: seq<string>)
    ensures result == Reversed(hunkLines)
  {
    result := [];
    var i := 0;
    while i < |hunkLines|
      invariant 0 <= i <= |hunkLines|
      invariant Pending(hunkLines, result, hunkLines[i..])
    {
      var line := hunkLines[i];
      KeptStep(hunkLines, result, i);
      if Starts(line, ' ') {
        result := result + [line];
        i := i + 1;
      } else if Starts(line, '-') || Starts(line, '+') {
        var minusLines, noNewlineAfterMinus, j := CollectRun(hunkLines, i, '-');
        var plusLines, noNewlineAfterPlus, k := CollectRun(hunkLines, j, '+');
        GroupStep(hunkLines, result, hunkLines[i..]);
        i := k;
        result := result + Emit('-', plusLines, noNewlineAfterPlus);
        result := result + Emit('+', minusLines, noNewlineAfterMinus);
      } else if IsMarker(line) {
        result := result + [line];
        i := i + 1;
      } else {
        result := result + [line];
        i := i + 1;
      }
    }
  }

  /** What is written so far and the reversal of what is left make up the whole. */
  ghost predicate Pending(whole: seq<string>, written: seq<string>, left: seq<string>) {
    written + Reversed(left) == Reversed(whole)
  }

  lemma KeptStep(whole: seq<string>, written: seq<string>, i: nat)
    requires i < |whole| && Pending(whole, written, whole[i..])
    ensures !IsChange(whole[i]) ==> Pending(whole, written + [whole[i]], whole[i + 1..])
  {
    assert whole[i..][1..] == whole[i + 1..];
    Regroup(written, [], [whole[i]], Reversed(whole[i + 1..]));
    assert [] + [whole[i]] == [whole[i]];
  }

  lemma GroupStep(whole: seq<string>, written: seq<string>, body: seq<string>)
    requires body != [] && IsChange(body[0]) && Pending(whole, written, body)
    ensures var minus := TakeRun(body, '-'); var plus := TakeRun(minus.rest, '+');
      && |plus.rest| < |body|
      && Pending(whole, (written + Emit('-', plus.texts, plus.marked)) + Emit('+', minus.texts, minus.marked),
                 plus.rest)
  {
    var minus := TakeRun(body, '-');
    var plus := TakeRun(minus.rest, '+');
    Regroup(written, Emit('-', plus.texts, plus.marked), Emit('+', minus.texts, minus.marked), Reversed(plus.rest));
  }

  lemma Regroup<T>(a: seq<T>, b: seq<T>, c: seq<T>, d: seq<T>)
    ensures a + (b + c + d) == a + b + c + d
  {
  }

  // ---------------------------------------------------------------- line by line

  /** A run as written: its texts under a sign, each followed by a marker line where `marks`
      has one. */
  function Marked(sign: char, texts: seq<string>, marks: seq<Option<string>>): seq<string>
    requires |texts| == |marks|
  {
    if texts == [] then []
    else ([[sign] + texts[0]] + if marks[0].Some? then [marks[0].value] else []) + Marked(sign, texts[1..], marks[1..])
  }

  predicate AreMarks(marks: seq<Option<string>>) {
    forall k :: 0 <= k < |marks| && marks[k].Some? ==> IsMarker(marks[k].value)
  }

  predicate AnyMark(marks: seq<Option<string>>) {
    exists k :: 0 <= k < |marks| && marks[k].Some?
  }

  /** The body after a run: no marker, and no line of the run's sign. */
  predicate EndsRun(rest: seq<string>, sign: char) {
    rest != [] ==> !IsMarker(rest[0]) && !Starts(rest[0], sign)
  }

  lemma {:induction false} TakeMarked(sign: char, texts: seq<string>, marks: seq<Option<string>>, rest: seq<string>)
    requires |texts| == |marks| && AreMarks(marks) && sign != '\\'
    requires texts == [] ==> rest == [] || !Starts(rest[0], sign)
    requires texts != [] ==> EndsRun(rest, sign)
    ensures TakeRun(Marked(sign, texts, marks) + rest, sign) == Run(texts, AnyMark(marks), rest)
  {
    if texts == [] {
      Whole(rest);
    } else {
      var line := [sign] + texts[0];
      var first := [line] + if marks[0].Some? then [marks[0].value] else [];
      var more := Marked(sign, texts[1..], marks[1..]) + rest;
      TakeMarked(sign, texts[1..], marks[1..], rest);
      Assoc(first, Marked(sign, texts[1..], marks[1..]), rest);
      MarkedStart(sign, texts[1..], marks[1..], rest);
      TakeFirst(sign, texts[0], marks[0], more);
      assert [texts[0]] + texts[1..] == texts;
      assert AnyMark(marks) <==> marks[0].Some? || AnyMark(marks[1..]);
    }
  }

  lemma MarkedStart(sign: char, texts: seq<string>, marks: seq<Option<string>>, rest: seq<string>)
    requires |texts| == |marks| && sign != '\\' && EndsRun(rest, sign)
    ensures var more := Marked(sign, texts, marks) + rest; more == [] || !IsMarker(more[0])
  {
  }

  lemma TakeFirst(sign: char, text: string, mark: Option<string>, more: seq<string>)
    requires mark.Some? ==> IsMarker(mark.value)
    requires more == [] || !IsMarker(more[0])
    ensures var r := TakeRun(more, sign);
      TakeRun(([[sign] + text] + if mark.Some? then [mark.value] else []) + more, sign)
      == Run([text] + r.texts, mark.Some? || r.marked, r.rest)
  {
    var first := [[sign] + text] + if mark.Some? then [mark.value] else [];
    ConsRest(sign, text);
    Parts(first, more);
    assert Width(first + more) == |first|;
  }

  /** A change group, a run of `-` and then one of `+`, each possibly with markers, comes out
      as the `+` texts under `-` and then the `-` texts under `+`, each run followed by one
      marker if it had any; what follows is reversed by itself. */
  lemma GroupReversed(minus: seq<string>, marks: seq<Option<string>>,
                      plus: seq<string>, marks': seq<Option<string>>, rest: seq<string>)
    requires |minus| == |marks| && |plus| == |marks'| && AreMarks(marks) && AreMarks(marks')
    requires minus != [] || plus != []
    requires EndsRun(rest, '+') && (plus == [] ==> EndsRun(rest, '-'))
    ensures Reversed(Marked('-', minus, marks) + (Marked('+', plus, marks') + rest))
         == ((Prefixed('-', plus) + (if AnyMark(marks') then ["\\ No newline at end of file"] else []))
             + (Prefixed('+', minus) + (if AnyMark(marks) then ["\\ No newline at end of file"] else [])))
            + Reversed(rest)
  {
    var tail := Marked('+', plus, marks') + rest;
    var body := Marked('-', minus, marks) + tail;
    TakeMarked('-', minus, marks, tail);
    TakeMarked('+', plus, marks', rest);
    assert body != [] && IsChange(body[0]);
  }

  /** Every other line stays where it is. */
  lemma OtherLineStays(line: string, rest: seq<string>)
    requires !Starts(line, '-') && !Starts(line, '+')
    ensures Reversed([line] + rest) == [line] + Reversed(rest)
  {
    ConsRest(line, rest);
  }

  // ---------------------------------------------------------------- the two sides

  /** A line of a file, and whether a newline ends it. */
  datatype FileLine = FileLine(text: string, newline: bool)

  /** Unaffected lines are on both sides; an empty line is an empty unaffected one. */
  predicate OnSide(line: string, sign: char) {
    line == "" || line[0] == ' ' || line[0] == sign
  }

  /** The file lines a hunk body shows for the old (`-`) or the new (`+`) version. A
      marker takes the newline off the line just before it. */
  function Side(body: seq<string>, sign: char): seq<FileLine> {
    if body == [] then []
    else
      (if OnSide(body[0], sign)
       then [FileLine(if body[0] == "" then "" else body[0][1..], !(|body| > 1 && IsMarker(body[1])))]
       else [])
      + Side(body[1..], sign)
  }

  /** No marker follows a marker. */
  predicate SingleMarkers(body: seq<string>) {
    |body| < 2 || (!(IsMarker(body[0]) && IsMarker(body[1])) && SingleMarkers(body[1..]))
  }

  /** No marked line is followed by a further line with the same sign. */
  predicate MarkersEndRuns(body: seq<string>) {
    |body| < 3 ||
    (&& !(IsMarker(body[1]) && Starts(body[0], '-') && Starts(body[2], '-'))
     && !(IsMarker(body[1]) && Starts(body[0], '+') && Starts(body[2], '+'))
     && MarkersEndRuns(body[1..]))
  }

  /** File lines of which only the last may lack its newline. */
  function Ended(texts: seq<string>, marked: bool): (lines: seq<FileLine>)
    ensures |lines| == |texts|
  {
    if texts == [] then []
    else [FileLine(texts[0], !(marked && |texts| == 1))] + Ended(texts[1..], marked)
  }

  /** The file lines of the run that `body` begins with, each with its own newline. */
  function RunLines(body: seq<string>, sign: char): (lines: seq<FileLine>)
    ensures |lines| == |TakeRun(body, sign).texts|
  {
    if body == [] || !Starts(body[0], sign) then []
    else [FileLine(body[0][1..], Width(body) == 1)] + RunLines(body[Width(body)..], sign)
  }

  predicate RunMarkerLast(body: seq<string>, sign: char) {
    body == [] || !Starts(body[0], sign) ||
    (&& (Width(body) == 2 && |body| > 2 ==> !Starts(body[2], sign))
     && RunMarkerLast(body[Width(body)..], sign))
  }

  lemma SideSkipsMarker(body: seq<string>, sign: char)
    requires body != [] && IsMarker(body[0])
    requires sign == '-' || sign == '+'
    ensures Side(body, sign) == Side(body[1..], sign)
  {
  }

  lemma {:induction false} RunSides(body: seq<string>, sign: char)
    requires sign == '-' || sign == '+'
    ensures var r := TakeRun(body, sign);
      && Side(body, sign) == RunLines(body, sign) + Side(r.rest, sign)
      && Side(body, Opposite(sign)) == Side(r.rest, Opposite(sign))
  {
    if body != [] && Starts(body[0], sign) {
      var w := Width(body);
      RunSides(body[w..], sign);
      SideAfterLine(body, sign);
      SideAfterLine(body, Opposite(sign));
      Assoc([FileLine(body[0][1..], w == 1)], RunLines(body[w..], sign), Side(TakeRun(body[w..], sign).rest, sign));
    }
  }

  lemma SideAfterLine(body: seq<string>, sign: char)
    requires body != [] && (sign == '-' || sign == '+')
    ensures Side(body[1..], sign) == Side(body[Width(body)..], sign)
  {
    if Width(body) == 2 {
      SideSkipsMarker(body[1..], sign);
      RestOfRest(body, 1, 1);
    }
  }

  lemma {:induction false} RunEnded(body: seq<string>, sign: char)
    requires sign == '-' || sign == '+'
    ensures var r := TakeRun(body, sign);
      RunLines(body, sign) == Ended(r.texts, r.marked) <==> RunMarkerLast(body, sign)
  {
    if body != [] && Starts(body[0], sign) {
      var w := Width(body);
      var r := TakeRun(body, sign);
      var r' := TakeRun(body[w..], sign);
      RunEnded(body[w..], sign);
      assert r.texts[1..] == r'.texts;
      if r'.texts == [] {
        assert body[w..] == [] || !Starts(body[w..][0], sign);
      } else {
        var first := FileLine(body[0][1..], w == 1);
        assert Ended(r.texts, r.marked) == [FileLine(body[0][1..], true)] + Ended(r'.texts, r.marked);
        SameSplit([first], RunLines(body[w..], sign), [FileLine(body[0][1..], true)], Ended(r'.texts, r.marked));
        assert Starts(body[w..][0], sign);
      }
    }
  }

  lemma {:induction false} RunMarkers(body: seq<string>, sign: char)
    requires sign == '-' || sign == '+'
    requires SingleMarkers(body)
    ensures var r := TakeRun(body, sign);
      && (MarkersEndRuns(body) <==> RunMarkerLast(body, sign) && MarkersEndRuns(r.rest))
      && SingleMarkers(r.rest)
      && (r.texts != [] && r.rest != [] ==> !IsMarker(r.rest[0]))
  {
    if body != [] && Starts(body[0], sign) {
      var w := Width(body);
      if w == 2 {
        assert body[1..][1..] == body[2..];
      }
      RunMarkers(body[w..], sign);
    }
  }

  lemma {:induction false} SideConcat(a: seq<string>, b: seq<string>, sign: char)
    requires b == [] || !IsMarker(b[0])
    ensures Side(a + b, sign) == Side(a, sign) + Side(b, sign)
  {
    if a == [] {
      assert a + b == b;
    } else {
      assert (a + b)[1..] == a[1..] + b;
      SideConcat(a[1..], b, sign);
    }
  }

  lemma {:induction false} SideEmit(shown: char, texts: seq<string>, marked: bool, sign: char)
    requires shown == '-' || shown == '+'
    requires sign == '-' || sign == '+'
    requires marked ==> texts != []
    ensures Side(Emit(shown, texts, marked), sign) == if sign == shown then Ended(texts, marked) else []
  {
    if texts != [] {
      var lines := Emit(shown, texts, marked);
      if |texts| == 1 {
        assert lines[1..] == if marked then [NO_NEWLINE] else [];
        assert Side(lines[1..], sign) == [];
      } else {
        assert lines[1..] == Emit(shown, texts[1..], marked);
        SideEmit(shown, texts[1..], marked, sign);
      }
    }
  }

  lemma ReversedStart(body: seq<string>)
    requires body != [] ==> !IsMarker(body[0])
    ensures Reversed(body) == [] || !IsMarker(Reversed(body)[0])
    ensures Reversed(body) == [] <==> body == []
  {
    if body != [] && IsChange(body[0]) {
      var minus := TakeRun(body, '-');
      var plus := TakeRun(minus.rest, '+');
      if plus.texts != [] {
        assert Reversed(body)[0] == "-" + plus.texts[0];
      } else {
        assert Reversed(body)[0] == "+" + minus.texts[0];
      }
    }
  }

  /** A run whose marker is not on its last line has its marker moved there, and a moved
      marker is the only thing that can make the reversed body differ from the swap of
      the two sides: the swap is exact if and only if every marker ends its run. */
  lemma {:induction false} SidesSwap(body: seq<string>)
    requires SingleMarkers(body)
    ensures (&& Side(Reversed(body), '-') == Side(body, '+')
             && Side(Reversed(body), '+') == Side(body, '-'))
            <==> MarkersEndRuns(body)
    decreases |body|
  {
    if body == [] {
    } else if IsChange(body[0]) {
      var minus := TakeRun(body, '-');
      var plus := TakeRun(minus.rest, '+');
      var rest := plus.rest;
      GroupSides(body);
      ReversedGroupSide(body, '-');
      ReversedGroupSide(body, '+');
      RunMarkers(body, '-');
      RunMarkers(minus.rest, '+');
      RunEnded(body, '-');
      RunEnded(minus.rest, '+');
      SidesSwap(rest);
      SameSplit(Ended(plus.texts, plus.marked), Side(Reversed(rest), '-'),
                RunLines(minus.rest, '+'), Side(rest, '+'));
      SameSplit(Ended(minus.texts, minus.marked), Side(Reversed(rest), '+'),
                RunLines(body, '-'), Side(rest, '-'));
    } else {
      SidesSwap(body[1..]);
      KeptLineSides(body);
    }
  }

  /** A marker in the middle of a run does move, so here the sides are not swapped: on the
      new side of the reversal the marker takes the newline off `b` instead of `a`. */
  lemma MarkerMoves()
    ensures var body := ["-a", NO_NEWLINE, "-b"];
      && SingleMarkers(body)
      && !(Side(Reversed(body), '-') == Side(body, '+') && Side(Reversed(body), '+') == Side(body, '-'))
  {
    var body := ["-a", NO_NEWLINE, "-b"];
    assert !MarkersEndRuns(body);
    assert SingleMarkers(body[1..][1..]);
    SidesSwap(body);
  }

  lemma SameSplit<T>(a: seq<T>, b: seq<T>, c: seq<T>, d: seq<T>)
    requires |a| == |c|
    ensures a + b == c + d <==> a == c && b == d
  {
    if a + b == c + d {
      assert a == (a + b)[..|a|] == c;
      assert b == (a + b)[|a|..] == d;
    }
  }

  /** Both sides of a change group. */
  lemma GroupSides(body: seq<string>)
    ensures var minus := TakeRun(body, '-'); var plus := TakeRun(minus.rest, '+');
      && Side(body, '-') == RunLines(body, '-') + Side(plus.rest, '-')
      && Side(body, '+') == RunLines(minus.rest, '+') + Side(plus.rest, '+')
  {
    RunSides(body, '-');
    RunSides(TakeRun(body, '-').rest, '+');
  }

  lemma NoneBetween<T>(a: seq<T>, b: seq<T>)
    ensures a + [] + b == a + b && [] + a + b == a + b
  {
  }

  /** One side of the reversal of a change group. */
  lemma ReversedGroupSide(body: seq<string>, sign: char)
    requires body != [] && IsChange(body[0]) && SingleMarkers(body)
    requires sign == '-' || sign == '+'
    ensures var minus := TakeRun(body, '-'); var plus := TakeRun(minus.rest, '+');
      Side(Reversed(body), sign)
      == (if sign == '-' then Ended(plus.texts, plus.marked) else Ended(minus.texts, minus.marked))
         + Side(Reversed(plus.rest), sign)
  {
    hide Emit, Ended, Side;
    var minus := TakeRun(body, '-');
    var plus := TakeRun(minus.rest, '+');
    RunMarkers(body, '-');
    RunMarkers(minus.rest, '+');
    MarkedHasText(body, '-');
    MarkedHasText(minus.rest, '+');
    ReversedStart(plus.rest);
    EmitStart('+', minus.texts, minus.marked);
    var p, m := Emit('-', plus.texts, plus.marked), Emit('+', minus.texts, minus.marked);
    SideConcat(p + m, Reversed(plus.rest), sign);
    SideConcat(p, m, sign);
    SideEmit('-', plus.texts, plus.marked, sign);
    SideEmit('+', minus.texts, minus.marked, sign);
    NoneBetween(if sign == '-' then Ended(plus.texts, plus.marked) else Ended(minus.texts, minus.marked),
                Side(Reversed(plus.rest), sign));
  }

  lemma MarkedHasText(body: seq<string>, sign: char)
    ensures TakeRun(body, sign).marked ==> TakeRun(body, sign).texts != []
  {
  }

  lemma EmitStart(sign: char, texts: seq<string>, marked: bool)
    requires sign == '-' || sign == '+'
    requires marked ==> texts != []
    ensures var lines := Emit(sign, texts, marked);
      && (lines == [] <==> texts == [])
      && (lines != [] ==> Starts(lines[0], sign))
  {
    if texts != [] {
      assert Emit(sign, texts, marked)[0] == [sign] + texts[0];
    }
  }

  lemma KeptLineSides(body: seq<string>)
    requires body != [] && !IsChange(body[0]) && SingleMarkers(body)
    ensures forall sign | sign == '-' || sign == '+' ::
      (Side(Reversed(body), sign) == Side(body, Opposite(sign))
       <==> Side(Reversed(body[1..]), sign) == Side(body[1..], Opposite(sign)))
    ensures MarkersEndRuns(body) <==> MarkersEndRuns(body[1..])
  {
    var line, rest := body[0], body[1..];
    assert Reversed(body)[1..] == Reversed(rest);
    if rest != [] && IsMarker(rest[0]) {
      assert Reversed(rest)[0] == rest[0];
    } else {
      ReversedStart(rest);
    }
    forall sign | sign == '-' || sign == '+'
      ensures Side(Reversed(body), sign) == Side(body, Opposite(sign))
         <==> Side(Reversed(rest), sign) == Side(rest, Opposite(sign))
    {
      var head := Side(Reversed(body), sign)[..|Side(Reversed(body), sign)| - |Side(Reversed(rest), sign)|];
      assert Side(Reversed(body), sign) == head + Side(Reversed(rest), sign);
      assert Side(body, Opposite(sign)) == head + Side(rest, Opposite(sign));
      SameSplit(head, Side(Reversed(rest), sign), head, Side(rest, Opposite(sign)));
    }
  }
}

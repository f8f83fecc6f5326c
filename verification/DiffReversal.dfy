/** Reversal of a whole diff (`reverse_diff`), the meaning of a diff as a change of a
    tree of files, and the proof that the reversed diff undoes that change. */
module DiffReversal {
  import opened Optional
  import opened DiffText
  import opened HunkReversal
  import opened Seqs

  // ---------------------------------------------------------------- the algorithm

  predicate IsHunkLine(line: string) {
    |line| >= 2 && line[0] == '@' && line[1] == '@'
  }

  predicate IsFileLine(line: string) {
    "diff " <= line
  }

  predicate IsIndexLine(line: string) {
    "index " <= line
  }

  predicate EndsBody(line: string) {
    IsHunkLine(line) || IsFileLine(line)
  }

  /** How many of `lines` belong to the hunk body they begin with. */
  function BodyLength(lines: seq<string>): (n: nat)
    ensures n <= |lines|
    ensures n < |lines| ==> EndsBody(lines[n])
  {
    if lines == [] || EndsBody(lines[0]) then 0 else 1 + BodyLength(lines[1..])
  }

  /** The reversed diff, line by line: hashes and header ranges exchanged, bodies
      reversed, all else kept. */
  function ReversedDiff(lines: seq<string>): seq<string>
    decreases |lines|
  {
    if lines == [] then []
    else if IsIndexLine(lines[0]) then
      [ReverseIndex(lines[0])] + ReversedDiff(lines[1..])
    else if IsHunkLine(lines[0]) then
      var n := BodyLength(lines[1..]);
      ([ReverseHeader(lines[0])] + Reversed(lines[1..][..n])) + ReversedDiff(lines[1..][n..])
    else
      [lines[0]] + ReversedDiff(lines[1..])
  }

  /** `reverse_diff`, on the lines of the diff. */
  method ReverseDiff(lines: seq<string>) returns (result: seq<string>)
    ensures result == ReversedDiff(lines)
  {
    result := [];
    var i := 0;
    while i < |lines|
      invariant 0 <= i <= |lines|
      invariant Pending(lines, result, lines[i..])
    {
      var line := lines[i];
      ghost var left := lines[i..];
      assert left[1..] == lines[i + 1..];
      if IsIndexLine(line) {
        Write(lines, result, left, [ReverseIndex(line)], lines[i + 1..]);
        result := result + [ReverseIndex(line)];
        i := i + 1;
      } else if IsHunkLine(line) {
        var header := ReverseHeader(line);
        var hunkLines, end := CollectBody(lines, i + 1);
        HunkParts(lines, i + 1, end);
        var reversed := ReverseHunk(hunkLines);
        Write(lines, result, left, [header] + reversed, lines[end..]);
        result := result + ([header] + reversed);
        i := end;
      } else {
        Write(lines, result, left, [line], lines[i + 1..]);
        result := result + [line];
        i := i + 1;
      }
    }
  }

  /** The inner loop: the lines of a hunk body, up to the next header or file. */
  method CollectBody(lines: seq<string>, start: nat) returns (hunkLines: seq<string>, end: nat)
    requires start <= |lines|
    ensures start <= end <= |lines| && hunkLines == lines[start..end]
    ensures end < |lines| ==> EndsBody(lines[end])
    ensures BodyLength(lines[start..]) == end - start + BodyLength(lines[end..])
  {
    hunkLines, end := [], start;
    while end < |lines| && !IsHunkLine(lines[end]) && !IsFileLine(lines[end])
      invariant start <= end <= |lines|
      invariant hunkLines == lines[start..end]
      invariant BodyLength(lines[start..]) == end - start + BodyLength(lines[end..])
    {
      BodyStep(lines, end);
      hunkLines := hunkLines + [lines[end]];
      end := end + 1;
    }
  }

  lemma BodyStep(lines: seq<string>, i: nat)
    requires i < |lines| && !EndsBody(lines[i])
    ensures BodyLength(lines[i..]) == 1 + BodyLength(lines[i + 1..])
  {
    assert lines[i..][1..] == lines[i + 1..];
  }

  lemma HunkParts(lines: seq<string>, start: nat, end: nat)
    requires 1 <= start <= end <= |lines|
    requires IsHunkLine(lines[start - 1]) && (end == |lines| || EndsBody(lines[end]))
    requires BodyLength(lines[start..]) == end - start + BodyLength(lines[end..])
    ensures ReversedDiff(lines[start - 1..])
         == ([ReverseHeader(lines[start - 1])] + Reversed(lines[start..end])) + ReversedDiff(lines[end..])
  {
    assert BodyLength(lines[end..]) == 0;
    assert lines[start..][..end - start] == lines[start..end];
    assert lines[start..][end - start..] == lines[end..];
    assert lines[start - 1..] == [lines[start - 1]] + lines[start..];
    HunkReversed(lines[start - 1], lines[start..]);
  }

  lemma HunkReversed(header: string, tail: seq<string>)
    requires IsHunkLine(header)
    ensures var n := BodyLength(tail);
      ReversedDiff([header] + tail) == ([ReverseHeader(header)] + Reversed(tail[..n])) + ReversedDiff(tail[n..])
  {
    var lines := [header] + tail;
    assert lines[1..] == tail;
    assert !IsIndexLine(header);
  }

  ghost predicate Pending(whole: seq<string>, written: seq<string>, left: seq<string>) {
    written + ReversedDiff(left) == ReversedDiff(whole)
  }

  lemma Write(whole: seq<string>, written: seq<string>, left: seq<string>, more: seq<string>, left': seq<string>)
    requires Pending(whole, written, left)
    requires ReversedDiff(left) == more + ReversedDiff(left')
    ensures Pending(whole, written + more, left')
  {
    Assoc(written, more, ReversedDiff(left'));
  }

  // ---------------------------------------------------------------- what a diff says

  datatype Hunk = Hunk(header: Header, body: seq<string>) {
    function Swap(): Hunk {
      Hunk(header.Swap(), Reversed(body))
    }

    function Old(): seq<FileLine> {
      Side(body, '-')
    }

    function New(): seq<FileLine> {
      Side(body, '+')
    }
  }

  /** A diff as read: `diff` lines name the file that the hunks after them change. */
  datatype Item = FileStart(name: string) | Change(hunk: Hunk) | Garbled(line: string, body: seq<string>) | Note {
    function Swap(): Item {
      match this
      case Change(h) => Change(h.Swap())
      case Garbled(line, body) => Garbled(line, Reversed(body))
      case _ => this
    }
  }

  function ReadHunk(line: string, body: seq<string>): Item {
    match ParseHeader(line)
    case Some(h) => Change(Hunk(h, body))
    case None => Garbled(line, body)
  }

  function Items(lines: seq<string>): seq<Item>
    decreases |lines|
  {
    if lines == [] then []
    else if IsHunkLine(lines[0]) then
      var n := BodyLength(lines[1..]);
      [ReadHunk(lines[0], lines[1..][..n])] + Items(lines[1..][n..])
    else
      [if IsFileLine(lines[0]) then FileStart(lines[0]) else Note] + Items(lines[1..])
  }

  function SwapItems(items: seq<Item>): seq<Item> {
    Map((item: Item) => item.Swap(), items)
  }

  /** The hunks for file `name`, when `items` begin inside the section of `current`. */
  function FileHunks(items: seq<Item>, current: string, name: string): seq<Hunk> {
    if items == [] then []
    else
      match items[0]
      case FileStart(next) => FileHunks(items[1..], next, name)
      case Change(h) =>
        var later := FileHunks(items[1..], current, name);
        if current == name then [h] + later else later
      case _ => FileHunks(items[1..], current, name)
  }

  function SwapHunks(hunks: seq<Hunk>): seq<Hunk> {
    Map((hunk: Hunk) => hunk.Swap(), hunks)
  }

  // ---------------------------------------------------------------- applying a diff

  type File = seq<FileLine>

  /** What a hunk asks for: after `oldStart` lines of the old file come the lines `oldLines`,
      and in the new file, after `newStart` lines, the lines `newLines` stand for them. */
  datatype Edit = Edit(oldStart: int, oldLines: File, newStart: int, newLines: File) {
    function Swap(): Edit {
      Edit(newStart, newLines, oldStart, oldLines)
    }
  }

  function ToEdit(h: Hunk): Edit {
    Edit(h.header.minus.Before(), h.Old(), h.header.plus.Before(), h.New())
  }

  function ToEdits(hunks: seq<Hunk>): seq<Edit> {
    Map((hunk: Hunk) => ToEdit(hunk), hunks)
  }

  /** The rest of the new version of `file`, of whose old lines `done` are used up: each
      edit must find its old lines exactly where its header puts them. */
  function Apply(edits: seq<Edit>, file: File, done: nat): Option<File>
    requires done <= |file|
    decreases |edits|
  {
    if edits == [] then Some(file[done..])
    else
      var start, end := edits[0].oldStart, edits[0].oldStart + |edits[0].oldLines|;
      if done <= start && end <= |file| && file[start..end] == edits[0].oldLines then
        match Apply(edits[1..], file, end)
        case None => None
        case Some(rest) => Some(file[done..start] + edits[0].newLines + rest)
      else None
  }

  /** Both places of each edit agree with what the edits before it have moved. */
  predicate InOrder(edits: seq<Edit>, oldDone: int, newDone: int) {
    edits == [] ||
    var e := edits[0];
    && oldDone <= e.oldStart
    && e.newStart - newDone == e.oldStart - oldDone
    && InOrder(edits[1..], e.oldStart + |e.oldLines|, e.newStart + |e.newLines|)
  }

  predicate NewlineInside(lines: seq<FileLine>) {
    forall i :: 0 <= i < |lines| - 1 ==> lines[i].newline
  }

  predicate KnownLines(body: seq<string>) {
    forall line :: line in body ==> line == "" || line[0] in " -+\\"
  }

  predicate ValidHunk(h: Hunk) {
    && h.header.Valid()
    && h.header.minus.Lines() == |h.Old()|
    && h.header.plus.Lines() == |h.New()|
    && KnownLines(h.body)
    && SingleMarkers(h.body) && (h.body != [] ==> !IsMarker(h.body[0]))
    && NewlineInside(h.Old()) && NewlineInside(h.New())
  }

  predicate AllValid(hunks: seq<Hunk>) {
    hunks == [] || (ValidHunk(hunks[0]) && AllValid(hunks[1..]))
  }

  predicate ValidFileDiff(hunks: seq<Hunk>) {
    AllValid(hunks) && InOrder(ToEdits(hunks), 0, 0)
  }

  ghost predicate ValidDiff(lines: seq<string>) {
    && (forall item :: item in Items(lines) ==> !item.Garbled?)
    && (forall name: string :: ValidFileDiff(FileHunks(Items(lines), "", name)))
  }

  /** The edits that the diff `lines` asks for in file `name`. */
  function EditsFor(lines: seq<string>, name: string): seq<Edit> {
    ToEdits(FileHunks(Items(lines), "", name))
  }

  /** Applying the diff `lines` to the tree `before` gives exactly the tree `after`. */
  ghost predicate Turns(lines: seq<string>, before: map<string, File>, after: map<string, File>) {
    && before.Keys == after.Keys
    && (forall name :: name in before ==>
         Apply(EditsFor(lines, name), before[name], 0) == Some(after[name]))
    && (forall name: string :: EditsFor(lines, name) != [] ==> name in before)
  }

  // ---------------------------------------------------------------- reversal of a hunk

  lemma {:induction false} ReversedLines(body: seq<string>)
    ensures forall line :: line in Reversed(body) ==> line in body || (line != "" && line[0] in "-+\\")
    decreases |body|
  {
    if body == [] {
    } else if IsChange(body[0]) {
      var minus := TakeRun(body, '-');
      var plus := TakeRun(minus.rest, '+');
      RestLines(body, '-');
      RestLines(minus.rest, '+');
      ReversedLines(plus.rest);
      EmitLines('-', plus.texts, plus.marked);
      EmitLines('+', minus.texts, minus.marked);
    } else {
      ReversedLines(body[1..]);
    }
  }

  lemma {:induction false} EmitLines(sign: char, texts: seq<string>, marked: bool)
    ensures forall line :: line in Emit(sign, texts, marked) ==> line != "" && (line[0] == sign || line[0] == '\\')
  {
    if texts != [] {
      EmitLines(sign, texts[1..], marked);
      assert Emit(sign, texts, marked) == [[sign] + texts[0]] + Emit(sign, texts[1..], marked);
    }
  }

  lemma {:induction false} RestLines(body: seq<string>, sign: char)
    ensures forall line :: line in TakeRun(body, sign).rest ==> line in body
  {
    if body != [] && Starts(body[0], sign) {
      RestLines(body[Width(body)..], sign);
    }
  }

  lemma {:induction false} JoinSingle(a: seq<string>, b: seq<string>)
    requires SingleMarkers(a) && SingleMarkers(b)
    requires a != [] && b != [] ==> !IsMarker(b[0])
    ensures SingleMarkers(a + b)
  {
    if a == [] {
      assert a + b == b;
    } else {
      assert (a + b)[1..] == a[1..] + b;
      if |a| > 1 {
        assert (a + b)[1] == a[1];
      }
      JoinSingle(a[1..], b);
    }
  }

  lemma {:induction false} EmitSingle(sign: char, texts: seq<string>, marked: bool)
    requires sign != '\\'
    requires marked ==> texts != []
    ensures SingleMarkers(Emit(sign, texts, marked))
  {
    if texts != [] {
      var lines := Emit(sign, texts, marked);
      assert lines[0] == [sign] + texts[0];
      if |texts| == 1 {
        assert lines[1..] == if marked then [NO_NEWLINE] else [];
      } else {
        assert lines[1..] == Emit(sign, texts[1..], marked);
        EmitSingle(sign, texts[1..], marked);
      }
    }
  }

  lemma {:induction false} ReversedSingle(body: seq<string>)
    requires SingleMarkers(body)
    ensures SingleMarkers(Reversed(body))
    decreases |body|
  {
    if body == [] {
    } else if IsChange(body[0]) {
      var minus := TakeRun(body, '-');
      var plus := TakeRun(minus.rest, '+');
      RunMarkers(body, '-');
      RunMarkers(minus.rest, '+');
      MarkedHasText(body, '-');
      MarkedHasText(minus.rest, '+');
      ReversedSingle(plus.rest);
      ReversedStart(plus.rest);
      EmitSingle('-', plus.texts, plus.marked);
      EmitSingle('+', minus.texts, minus.marked);
      EmitStart('+', minus.texts, minus.marked);
      JoinSingle(Emit('-', plus.texts, plus.marked), Emit('+', minus.texts, minus.marked));
      JoinSingle(Emit('-', plus.texts, plus.marked) + Emit('+', minus.texts, minus.marked), Reversed(plus.rest));
    } else {
      ReversedSingle(body[1..]);
      if IsMarker(body[0]) {
        ReversedStart(body[1..]);
        JoinSingle([body[0]], Reversed(body[1..]));
      } else if Reversed(body[1..]) != [] {
        assert Reversed(body)[1..] == Reversed(body[1..]);
      }
    }
  }

  lemma {:induction false} ClosedSidesEndRuns(body: seq<string>)
    requires SingleMarkers(body)
    requires NewlineInside(Side(body, '-')) && NewlineInside(Side(body, '+'))
    ensures MarkersEndRuns(body)
  {
    if |body| >= 3 {
      ClosedTail(body, '-');
      ClosedTail(body, '+');
      ClosedSidesEndRuns(body[1..]);
    }
  }

  lemma ClosedTail(body: seq<string>, sign: char)
    requires |body| >= 3 && NewlineInside(Side(body, sign))
    ensures NewlineInside(Side(body[1..], sign))
    ensures !(IsMarker(body[1]) && Starts(body[0], sign) && Starts(body[2], sign))
  {
    var whole, tail := Side(body, sign), Side(body[1..], sign);
    var k := |whole| - |tail|;
    assert forall i :: 0 <= i < |tail| ==> tail[i] == whole[k + i];
    if Starts(body[0], sign) && Starts(body[2], sign) {
      assert body[1..][1..] == body[2..];
      assert |Side(body[2..], sign)| >= 1;
      assert |tail| >= |Side(body[2..], sign)|;
      assert whole[0].newline == !IsMarker(body[1]);
    }
  }

  /** The reversed hunk is well formed, its ranges and its sides exchanged. */
  lemma SwapHunkValid(h: Hunk)
    requires ValidHunk(h)
    ensures h.Swap().Old() == h.New() && h.Swap().New() == h.Old()
    ensures ValidHunk(h.Swap())
  {
    ClosedSidesEndRuns(h.body);
    SidesSwap(h.body);
    ReversedLines(h.body);
    ReversedSingle(h.body);
    ReversedStart(h.body);
  }

  // ---------------------------------------------------------------- reversal of one file

  function SwapEdits(edits: seq<Edit>): seq<Edit> {
    Map((edit: Edit) => edit.Swap(), edits)
  }

  lemma {:induction false} SwapHunksValid(hunks: seq<Hunk>)
    requires AllValid(hunks)
    ensures AllValid(SwapHunks(hunks))
    ensures ToEdits(SwapHunks(hunks)) == SwapEdits(ToEdits(hunks))
  {
    if hunks != [] {
      SwapHunkValid(hunks[0]);
      SwapHunksValid(hunks[1..]);
      assert SwapHunks(hunks)[1..] == SwapHunks(hunks[1..]);
      assert ToEdits(hunks)[1..] == ToEdits(hunks[1..]);
    }
  }

  lemma {:induction false} SwapInOrder(edits: seq<Edit>, oldDone: int, newDone: int)
    requires InOrder(edits, oldDone, newDone)
    ensures InOrder(SwapEdits(edits), newDone, oldDone)
  {
    if edits != [] {
      var e := edits[0];
      SwapInOrder(edits[1..], e.oldStart + |e.oldLines|, e.newStart + |e.newLines|);
      assert SwapEdits(edits)[1..] == SwapEdits(edits[1..]);
    }
  }

  /** If the edits turn what is left of `a` into what is left of `b`, then the swapped
      edits turn what is left of `b` back into what is left of `a`. */
  lemma {:induction false} UndoRest(edits: seq<Edit>, a: File, oldDone: nat, b: File, newDone: nat)
    requires InOrder(edits, oldDone, newDone)
    requires oldDone <= |a| && newDone <= |b|
    requires Apply(edits, a, oldDone) == Some(b[newDone..])
    ensures Apply(SwapEdits(edits), b, newDone) == Some(a[oldDone..])
    decreases |edits|
  {
    if edits != [] {
      var e := edits[0];
      var end, end' := e.oldStart + |e.oldLines|, e.newStart + |e.newLines|;
      var kept := a[oldDone..e.oldStart];
      var rest := Apply(edits[1..], a, end).value;
      Located(b, newDone, kept, e.newLines, rest);
      UndoRest(edits[1..], a, end, b, end');
      ApplyOne(e.Swap(), SwapEdits(edits[1..]), b, newDone, a[end..]);
      ThreeParts(a, oldDone, e.oldStart, end);
    }
  }

  lemma ApplyOne(e: Edit, more: seq<Edit>, file: File, done: nat, rest: File)
    requires done <= e.oldStart && e.oldStart + |e.oldLines| <= |file|
    requires file[e.oldStart..e.oldStart + |e.oldLines|] == e.oldLines
    requires Apply(more, file, e.oldStart + |e.oldLines|) == Some(rest)
    ensures Apply([e] + more, file, done) == Some(file[done..e.oldStart] + e.newLines + rest)
  {
    ConsRest(e, more);
  }

  lemma ThreeParts<T>(s: seq<T>, i: nat, j: nat, k: nat)
    requires i <= j <= k <= |s|
    ensures s[i..] == s[i..j] + s[j..k] + s[k..]
  {
  }

  lemma Located<T>(b: seq<T>, done: nat, x: seq<T>, y: seq<T>, z: seq<T>)
    requires done <= |b| && b[done..] == x + y + z
    ensures done + |x| + |y| <= |b|
    ensures b[done..done + |x|] == x
    ensures b[done + |x|..done + |x| + |y|] == y
    ensures b[done + |x| + |y|..] == z
  {
    var t := b[done..];
    assert t[..|x|] == x;
    assert t[|x|..|x| + |y|] == y;
    assert t[|x| + |y|..] == z;
  }

  // ---------------------------------------------------------------- reversal of a diff

  predicate NoEnds(body: seq<string>) {
    forall line :: line in body ==> !EndsBody(line)
  }

  lemma {:induction false} BodyHasNoEnds(lines: seq<string>)
    ensures NoEnds(lines[..BodyLength(lines)])
  {
    if lines != [] && !EndsBody(lines[0]) {
      BodyHasNoEnds(lines[1..]);
      var n := BodyLength(lines[1..]);
      assert lines[..n + 1] == [lines[0]] + lines[1..][..n];
    }
  }

  lemma {:induction false} BodyStops(body: seq<string>, rest: seq<string>)
    requires NoEnds(body)
    requires rest == [] || EndsBody(rest[0])
    ensures BodyLength(body + rest) == |body|
  {
    if body == [] {
      assert body + rest == rest;
    } else {
      assert body[0] in body;
      assert (body + rest)[1..] == body[1..] + rest;
      BodyStops(body[1..], rest);
    }
  }

  lemma ReversedHasNoEnds(body: seq<string>)
    requires NoEnds(body)
    ensures NoEnds(Reversed(body))
  {
    ReversedLines(body);
  }

  lemma FirstLineKept(lines: seq<string>)
    requires lines == [] || EndsBody(lines[0])
    ensures var r := ReversedDiff(lines); r == [] || EndsBody(r[0])
  {
    if lines != [] && IsHunkLine(lines[0]) {
      HeaderStaysHeader(lines[0], []);
    }
  }

  lemma HeaderStaysHeader(line: string, body: seq<string>)
    requires IsHunkLine(line)
    ensures IsHunkLine(ReverseHeader(line))
    ensures ReadHunk(ReverseHeader(line), Reversed(body)) == ReadHunk(line, body).Swap()
  {
    match ParseHeader(line)
    case None =>
    case Some(h) =>
      ParseHeaderRender(h.Swap());
      RenderStart(h.Swap());
  }

  /** A header, a body without section ends and what follows are read as written. */
  lemma ReadBack(header: string, body: seq<string>, rest: seq<string>)
    requires IsHunkLine(header) && NoEnds(body)
    requires rest == [] || EndsBody(rest[0])
    ensures Items(([header] + body) + rest) == [ReadHunk(header, body)] + Items(rest)
  {
    var lines := ([header] + body) + rest;
    assert lines[1..] == body + rest;
    BodyStops(body, rest);
    assert (body + rest)[..|body|] == body;
    assert (body + rest)[|body|..] == rest;
  }

  /** Reading the reversed diff gives the items of the diff, each swapped. */
  lemma {:induction false} ItemsReversed(lines: seq<string>)
    ensures Items(ReversedDiff(lines)) == SwapItems(Items(lines))
    decreases |lines|
  {
    if lines == [] {
    } else if IsHunkLine(lines[0]) {
      var n := BodyLength(lines[1..]);
      var rest := lines[1..][n..];
      HunkItemReversed(lines);
      ItemsReversed(rest);
      SwapItemsCons(ReadHunk(lines[0], lines[1..][..n]), Items(rest));
    } else {
      ItemsReversed(lines[1..]);
      OtherItemReversed(lines);
      SwapItemsCons(if IsFileLine(lines[0]) then FileStart(lines[0]) else Note, Items(lines[1..]));
    }
  }

  lemma SwapItemsCons(item: Item, items: seq<Item>)
    ensures SwapItems([item] + items) == [item.Swap()] + SwapItems(items)
  {
    ConsRest(item, items);
  }

  lemma OtherItemReversed(lines: seq<string>)
    requires lines != [] && !IsHunkLine(lines[0])
    ensures var item := if IsFileLine(lines[0]) then FileStart(lines[0]) else Note;
      && Items(lines) == [item] + Items(lines[1..])
      && Items(ReversedDiff(lines)) == [item] + Items(ReversedDiff(lines[1..]))
  {
    var first := if IsIndexLine(lines[0]) then ReverseIndex(lines[0]) else lines[0];
    ConsRest(first, ReversedDiff(lines[1..]));
    assert IsIndexLine(lines[0]) ==> !IsHunkLine(first) && !IsFileLine(first) && !IsFileLine(lines[0]);
  }

  lemma HunkItemReversed(lines: seq<string>)
    requires lines != [] && IsHunkLine(lines[0])
    ensures var n := BodyLength(lines[1..]);
      var body, rest := lines[1..][..n], lines[1..][n..];
      && Items(lines) == [ReadHunk(lines[0], body)] + Items(rest)
      && Items(ReversedDiff(lines)) == [ReadHunk(lines[0], body).Swap()] + Items(ReversedDiff(rest))
  {
    var n := BodyLength(lines[1..]);
    var body, rest := lines[1..][..n], lines[1..][n..];
    BodyHasNoEnds(lines[1..]);
    HeaderStaysHeader(lines[0], body);
    ReversedHasNoEnds(body);
    FirstLineKept(rest);
    ReadBack(ReverseHeader(lines[0]), Reversed(body), ReversedDiff(rest));
  }

  lemma {:induction false} FileHunksSwapped(items: seq<Item>, current: string, name: string)
    ensures FileHunks(SwapItems(items), current, name) == SwapHunks(FileHunks(items, current, name))
  {
    if items != [] {
      assert SwapItems(items)[1..] == SwapItems(items[1..]);
      var next := if items[0].FileStart? then items[0].name else current;
      FileHunksSwapped(items[1..], next, name);
      if items[0].Change? && current == name {
        var later := FileHunks(items[1..], current, name);
        assert ([items[0].hunk] + later)[1..] == later;
      }
    }
  }

  lemma {:induction false} SwapKeepsGarbled(items: seq<Item>)
    requires forall item :: item in items ==> !item.Garbled?
    ensures forall item :: item in SwapItems(items) ==> !item.Garbled?
  {
    if items != [] {
      SwapKeepsGarbled(items[1..]);
    }
  }

  lemma {:induction false} SwapEditsTwice(edits: seq<Edit>)
    ensures SwapEdits(SwapEdits(edits)) == edits
  {
    if edits != [] {
      SwapEditsTwice(edits[1..]);
      ConsRest(edits[0].Swap(), SwapEdits(edits[1..]));
    }
  }

  /** The reversed diff is well formed, and asks in every file for the swapped edits. */
  lemma ReversedEdits(lines: seq<string>)
    requires ValidDiff(lines)
    ensures ValidDiff(ReversedDiff(lines))
    ensures forall name: string :: EditsFor(ReversedDiff(lines), name) == SwapEdits(EditsFor(lines, name))
  {
    ItemsReversed(lines);
    var items := Items(lines);
    SwapKeepsGarbled(items);
    forall name: string
      ensures ValidFileDiff(FileHunks(SwapItems(items), "", name))
      ensures EditsFor(ReversedDiff(lines), name) == SwapEdits(EditsFor(lines, name))
    {
      FileHunksSwapped(items, "", name);
      SwapHunksValid(FileHunks(items, "", name));
      SwapInOrder(ToEdits(FileHunks(items, "", name)), 0, 0);
    }
  }

  /** One direction of the main theorem, for a single file. */
  lemma UndoFile(edits: seq<Edit>, a: File, b: File)
    requires InOrder(edits, 0, 0) && Apply(edits, a, 0) == Some(b)
    ensures Apply(SwapEdits(edits), b, 0) == Some(a)
  {
    Whole(a);
    Whole(b);
    UndoRest(edits, a, 0, b, 0);
  }

  lemma UndoFileExactly(edits: seq<Edit>, a: File, b: File)
    requires InOrder(edits, 0, 0)
    ensures Apply(edits, a, 0) == Some(b) <==> Apply(SwapEdits(edits), b, 0) == Some(a)
  {
    if Apply(edits, a, 0) == Some(b) {
      UndoFile(edits, a, b);
    }
    if Apply(SwapEdits(edits), b, 0) == Some(a) {
      SwapInOrder(edits, 0, 0);
      UndoFile(SwapEdits(edits), b, a);
      SwapEditsTwice(edits);
    }
  }

  /** The main theorem. The reversal of a well-formed diff is well formed, and it turns
      one tree into another exactly when the diff turns the second tree into the first,
      newline at end of file included. */
  lemma ReversalUndoes(lines: seq<string>, before: map<string, File>, after: map<string, File>)
    requires ValidDiff(lines)
    ensures ValidDiff(ReversedDiff(lines))
    ensures Turns(lines, before, after) <==> Turns(ReversedDiff(lines), after, before)
  {
    ReversedEdits(lines);
    forall name: string
      ensures EditsFor(ReversedDiff(lines), name) == [] <==> EditsFor(lines, name) == []
    {
      assert EditsFor(ReversedDiff(lines), name) == SwapEdits(EditsFor(lines, name));
    }
    if before.Keys == after.Keys {
      forall name | name in before
        ensures Apply(EditsFor(lines, name), before[name], 0) == Some(after[name])
           <==> Apply(EditsFor(ReversedDiff(lines), name), after[name], 0) == Some(before[name])
      {
        assert ValidFileDiff(FileHunks(Items(lines), "", name));
        assert EditsFor(ReversedDiff(lines), name) == SwapEdits(EditsFor(lines, name));
        UndoFileExactly(EditsFor(lines, name), before[name], after[name]);
      }
    }
  }

  // ---------------------------------------------------------------- an example

  const ONE_LINE := Header(Range("1", ""), Range("1", ""), "")
  const CHANGED := ["-a", "+b"]
  const EXAMPLE := ["diff f", ONE_LINE.Render()] + CHANGED

  /** The meaning given to diffs is not empty: a diff that changes the one line of a file
      is well formed, and turns that file from `a` into `b`. */
  lemma ExampleTurns()
    ensures ValidDiff(EXAMPLE)
    ensures Turns(EXAMPLE, map["diff f" := [FileLine("a", true)]], map["diff f" := [FileLine("b", true)]])
  {
    ExampleItems();
    forall name: string
      ensures ValidFileDiff(FileHunks(Items(EXAMPLE), "", name))
      ensures EditsFor(EXAMPLE, name) == if name == "diff f" then [EXAMPLE_EDIT] else []
    {
      ExampleFile(name);
    }
    assert EditsFor(EXAMPLE, "diff f") == [EXAMPLE_EDIT];
    ExampleApply();
  }

  /** Well-formed hunks may end in a line without a newline, on either side. */
  lemma MarkedHunkValid()
    ensures var h := Hunk(ONE_LINE, ["-a", NO_NEWLINE, "+b"]);
      && ValidHunk(h)
      && h.Old() == [FileLine("a", false)] && h.New() == [FileLine("b", true)]
  {
    var body := ["-a", NO_NEWLINE, "+b"];
    assert body[1..] == [NO_NEWLINE, "+b"] && body[1..][1..] == ["+b"] && body[1..][1..][1..] == [];
    assert "-a"[1..] == "a" && "+b"[1..] == "b";
    assert Side(["+b"], '-') == [] && Side(["+b"], '+') == [FileLine("b", true)];
    assert Side(body[1..], '-') == [] && Side(body[1..], '+') == [FileLine("b", true)];
    assert "1"[..0] == "";
    assert Number("1") == 1;
  }

  const EXAMPLE_EDIT := Edit(0, [FileLine("a", true)], 0, [FileLine("b", true)])

  lemma ExampleApply()
    ensures Apply([EXAMPLE_EDIT], [FileLine("a", true)], 0) == Some([FileLine("b", true)])
  {
    var a, b := [FileLine("a", true)], [FileLine("b", true)];
    Whole(a);
    assert Apply([], a, 1) == Some([]);
    ApplyOne(EXAMPLE_EDIT, [], a, 0, []);
    assert [EXAMPLE_EDIT] + [] == [EXAMPLE_EDIT];
    assert a[0..0] + b + [] == b;
  }

  lemma ExampleFile(name: string)
    ensures var hunks := FileHunks(Items(EXAMPLE), "", name);
      && ValidFileDiff(hunks)
      && ToEdits(hunks) == if name == "diff f" then [EXAMPLE_EDIT] else []
  {
    ExampleItems();
    ExampleHunk();
    OneHunk("diff f", Hunk(ONE_LINE, CHANGED), name);
    SingleHunkDiff(Hunk(ONE_LINE, CHANGED));
  }

  lemma OneHunk(file: string, h: Hunk, name: string)
    ensures FileHunks([FileStart(file), Change(h)], "", name) == if name == file then [h] else []
  {
    var rest := [Change(h)];
    assert rest[1..] == [];
    assert FileHunks(rest, file, name) == if name == file then [h] else [];
    ConsRest(FileStart(file), rest);
    assert [FileStart(file)] + rest == [FileStart(file), Change(h)];
  }

  lemma SingleHunkDiff(h: Hunk)
    requires ValidHunk(h) && ToEdit(h).oldStart == ToEdit(h).newStart >= 0
    ensures ValidFileDiff([h]) && ToEdits([h]) == [ToEdit(h)]
  {
    assert [h][1..] == [];
    assert ToEdits([h][1..]) == [];
    assert [ToEdit(h)][1..] == [];
  }

  lemma ExampleHunk()
    ensures var h := Hunk(ONE_LINE, CHANGED);
      && ValidHunk(h)
      && ToEdit(h) == Edit(0, [FileLine("a", true)], 0, [FileLine("b", true)])
  {
    assert CHANGED[1..] == ["+b"];
    assert ["+b"][1..] == [];
    assert "-a"[1..] == "a" && "+b"[1..] == "b";
    assert Side(["+b"], '-') == [] && Side(["+b"], '+') == [FileLine("b", true)];
    assert Side(CHANGED, '-') == [FileLine("a", true)];
    assert Side(CHANGED, '+') == [FileLine("b", true)];
    assert "1"[..0] == "";
    assert Number("1") == 1;
  }

  lemma ExampleItems()
    ensures Items(EXAMPLE) == [FileStart("diff f"), Change(Hunk(ONE_LINE, CHANGED))]
  {
    var header := ONE_LINE.Render();
    RenderStart(ONE_LINE);
    ParseHeaderRender(ONE_LINE);
    assert EXAMPLE[1..] == [header] + CHANGED;
    Whole([header] + CHANGED);
    ReadBack(header, CHANGED, []);
    assert ([header] + CHANGED) + [] == [header] + CHANGED;
    assert Items([header] + CHANGED) == [ReadHunk(header, CHANGED)] + Items([]);
    assert !IsHunkLine("diff f");
  }

  // ---------------------------------------------------------------- line by line

  /** Where a hunk begins and where its body ends, by the text of the line. */
  lemma LineKinds(line: string)
    ensures IsHunkLine(line) <==> "@@" <= line
    ensures EndsBody(line) <==> "@@" <= line || "diff " <= line
  {
    assert "@@" <= line <==> |line| >= 2 && line[0] == '@' && line[1] == '@';
  }

  /** A diff that begins with an index line: the reversal begins with that line, its hashes
      exchanged, and goes on with the reversal of the other lines. */
  lemma IndexLineReversed(minus: string, plus: string, rest: string, lines: seq<string>)
    requires Blobs(minus, plus, rest).Valid()
    ensures ReversedDiff(["index " + (minus + (".." + (plus + rest)))] + lines)
         == ["index " + (plus + (".." + (minus + rest)))] + ReversedDiff(lines)
  {
    var line := "index " + (minus + (".." + (plus + rest)));
    IndexReversed(minus, plus, rest);
    ConsRest(line, lines);
    assert IsIndexLine(line) by {
      Parts("index ", minus + (".." + (plus + rest)));
    }
  }

  /** A diff that begins with any other line outside of a hunk, or with an index line that
      has no two hashes: the line stays, and so do the places of the lines after it. */
  lemma LineStays(line: string, lines: seq<string>)
    requires !IsHunkLine(line)
    requires IsIndexLine(line) ==> forall b: Blobs :: b.Valid() ==> line != b.Render()
    ensures ReversedDiff([line] + lines) == [line] + ReversedDiff(lines)
  {
    ConsRest(line, lines);
    if IsIndexLine(line) {
      OtherIndexStays(line);
    }
  }

  /** A diff that begins with a hunk: its header and its body are reversed, up to the next
      header or file line, and what follows is reversed by itself. */
  lemma HunkFirst(header: string, body: seq<string>, rest: seq<string>)
    requires IsHunkLine(header) && NoEnds(body)
    requires rest == [] || EndsBody(rest[0])
    ensures ReversedDiff([header] + (body + rest))
         == ([ReverseHeader(header)] + Reversed(body)) + ReversedDiff(rest)
  {
    BodyStops(body, rest);
    Parts(body, rest);
    HunkReversed(header, body + rest);
  }

  // ---------------------------------------------------------------- the final newline

  lemma {:induction false} RunBeforeEnd(body: seq<string>, sign: char)
    ensures var r := TakeRun(body, sign);
      TakeRun(body + [""], sign) == Run(r.texts, r.marked, r.rest + [""])
  {
    var longer := body + [""];
    if body != [] && Starts(body[0], sign) {
      assert longer[0] == body[0];
      assert Width(longer) == Width(body) by {
        if |body| > 1 {
          assert longer[1] == body[1];
        }
      }
      assert longer[Width(body)..] == body[Width(body)..] + [""];
      RunBeforeEnd(body[Width(body)..], sign);
    } else if body != [] {
      assert longer[0] == body[0];
    }
  }

  lemma GroupBeforeEnd(body: seq<string>)
    requires body != [] && IsChange(body[0])
    requires var rest := TakeRun(TakeRun(body, '-').rest, '+').rest;
      Reversed(rest + [""]) == Reversed(rest) + [""]
    ensures Reversed(body + [""]) == Reversed(body) + [""]
  {
    var minus := TakeRun(body, '-');
    var plus := TakeRun(minus.rest, '+');
    RunBeforeEnd(body, '-');
    RunBeforeEnd(minus.rest, '+');
    assert (body + [""])[0] == body[0];
    Assoc(Emit('-', plus.texts, plus.marked) + Emit('+', minus.texts, minus.marked), Reversed(plus.rest), [""]);
  }

  lemma {:induction false} ReversedBeforeEnd(body: seq<string>)
    ensures Reversed(body + [""]) == Reversed(body) + [""]
    decreases |body|
  {
    var longer := body + [""];
    if body == [] {
      assert longer == [""];
      assert Reversed([""]) == [""] + Reversed([]);
    } else {
      assert longer[0] == body[0];
      if IsChange(body[0]) {
        ReversedBeforeEnd(TakeRun(TakeRun(body, '-').rest, '+').rest);
        GroupBeforeEnd(body);
      } else {
        assert longer[1..] == body[1..] + [""];
        ReversedBeforeEnd(body[1..]);
        Assoc([body[0]], Reversed(body[1..]), [""]);
      }
    }
  }

  lemma {:induction false} BodyLengthBeforeEnd(lines: seq<string>)
    ensures BodyLength(lines + [""]) == if BodyLength(lines) == |lines| then |lines| + 1 else BodyLength(lines)
  {
    if lines == [] {
      assert lines + [""] == [""];
      assert BodyLength([""]) == 1 + BodyLength([]);
    } else {
      assert (lines + [""])[1..] == lines[1..] + [""];
      BodyLengthBeforeEnd(lines[1..]);
    }
  }

  /** A diff text that ends in a newline splits into its lines and an empty one; the
      reversed text ends in a newline again and its lines are those of the reversal. */
  lemma {:induction false} FinalNewline(lines: seq<string>)
    ensures ReversedDiff(lines + [""]) == ReversedDiff(lines) + [""]
    decreases |lines|
  {
    hide ReverseIndex, ReverseHeader, Reversed;
    if lines == [] {
      Whole([""]);
      assert ReversedDiff([""]) == [""] + ReversedDiff([]);
    } else {
      var header, tail := lines[0], lines[1..];
      assert lines == [header] + tail;
      Assoc([header], tail, [""]);
      if IsHunkLine(header) {
        HunkReversed(header, tail);
        HunkReversed(header, tail + [""]);
        BodyLengthBeforeEnd(tail);
        if BodyLength(tail) == |tail| {
          LastHunkBeforeEnd(header, tail);
        } else {
          FinalNewline(tail[BodyLength(tail)..]);
          HunkBeforeEnd(header, tail, BodyLength(tail));
        }
      } else {
        FinalNewline(tail);
        LineBeforeEnd(lines);
      }
    }
  }

  lemma LineBeforeEnd(lines: seq<string>)
    requires lines != [] && !IsHunkLine(lines[0])
    requires ReversedDiff(lines[1..] + [""]) == ReversedDiff(lines[1..]) + [""]
    ensures ReversedDiff(lines + [""]) == ReversedDiff(lines) + [""]
  {
    var first := [if IsIndexLine(lines[0]) then ReverseIndex(lines[0]) else lines[0]];
    assert (lines + [""])[1..] == lines[1..] + [""];
    Assoc(first, ReversedDiff(lines[1..]), [""]);
  }

  /** The last hunk takes the empty line into its body. */
  lemma LastHunkBeforeEnd(header: string, tail: seq<string>)
    ensures var h := [ReverseHeader(header)]; var longer := tail + [""];
      (h + Reversed(longer[..|longer|])) + ReversedDiff(longer[|longer|..])
      == (h + Reversed(tail[..|tail|])) + ReversedDiff(tail[|tail|..]) + [""]
  {
    hide ReverseHeader;
    var h := [ReverseHeader(header)];
    ReversedBeforeEnd(tail);
    Whole(tail);
    Whole(tail + [""]);
    assert ReversedDiff([]) == [];
    Assoc(h, Reversed(tail), [""]);
    Whole(h + Reversed(tail));
    Whole(h + Reversed(tail + [""]));
  }

  lemma HunkBeforeEnd(header: string, tail: seq<string>, n: nat)
    requires n < |tail|
    requires ReversedDiff(tail[n..] + [""]) == ReversedDiff(tail[n..]) + [""]
    ensures var h := [ReverseHeader(header)]; var longer := tail + [""];
      (h + Reversed(longer[..n])) + ReversedDiff(longer[n..])
      == (h + Reversed(tail[..n])) + ReversedDiff(tail[n..]) + [""]
  {
    assert (tail + [""])[..n] == tail[..n];
    assert (tail + [""])[n..] == tail[n..] + [""];
    Assoc([ReverseHeader(header)] + Reversed(tail[..n]), ReversedDiff(tail[n..]), [""]);
  }
}

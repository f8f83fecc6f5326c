/** Reading and writing the two kinds of diff line whose text carries fields:
    hunk headers and `index` lines. */
module DiffText {
  import opened Optional
  import opened Seqs

  predicate Starts(line: string, c: char) {
    line != "" && line[0] == c
  }

  predicate IsMarker(line: string) {
    Starts(line, '\\')
  }

  predicate IsDigit(c: char) {
    '0' <= c <= '9'
  }

  predicate IsHex(c: char) {
    '0' <= c <= '9' || 'a' <= c <= 'f'
  }

  /** The characters of line numbers and of abbreviated hashes. */
  lemma CharacterClasses(c: char)
    ensures IsDigit(c) <==> c in "0123456789"
    ensures IsHex(c) <==> c in "0123456789abcdef"
  {
  }

  predicate AllIn(s: string, p: char -> bool) {
    forall i :: 0 <= i < |s| ==> p(s[i])
  }

  /** Length of the longest prefix of `s` whose characters satisfy `p`. */
  function Span(s: string, p: char -> bool): (n: nat)
    ensures n <= |s|
    ensures AllIn(s[..n], p)
    ensures n < |s| ==> !p(s[n])
  {
    if s != "" && p(s[0]) then
      var n := 1 + Span(s[1..], p);
      assert forall i :: 0 < i < n ==> s[i] == s[1..][i - 1];
      n
    else 0
  }

  lemma {:induction false} SpanOfRun(run: string, rest: string, p: char -> bool)
    requires AllIn(run, p)
    requires rest == "" || !p(rest[0])
    ensures Span(run + rest, p) == |run|
  {
    if run == "" {
      assert run + rest == rest;
    } else {
      assert (run + rest)[1..] == run[1..] + rest;
      SpanOfRun(run[1..], rest, p);
    }
  }

  // ---------------------------------------------------------------- hunk headers

  /** One side of a hunk header; `count` is empty when the header leaves it out. */
  datatype Range = Range(start: string, count: string) {
    predicate Valid() {
      start != "" && AllIn(start, IsDigit) && AllIn(count, IsDigit)
    }

    function Render(): string {
      start + if count == "" then "" else "," + count
    }

    /** A range without a count covers one line. */
    function Lines(): nat {
      if count == "" then 1 else Number(count)
    }

    /** How many lines of the file come before the range. A range of no lines names
        the line before it, any other range names its first line. */
    function Before(): int {
      if Lines() == 0 then Number(start) else Number(start) - 1
    }
  }

  datatype Header = Header(minus: Range, plus: Range, rest: string) {
    predicate Valid() {
      minus.Valid() && plus.Valid()
    }

    function Render(): string {
      "@@ -" + minus.Render() + " +" + plus.Render() + " @@" + rest
    }

    function Swap(): Header {
      Header(plus, minus, rest)
    }
  }

  function Number(digits: string): nat {
    if digits == "" then 0
    else
      var last := digits[|digits| - 1];
      10 * Number(digits[..|digits| - 1]) + if IsDigit(last) then (last - '0') as nat else 0
  }

  function ParseRange(s: string): (r: Option<(Range, string)>)
    ensures r.Some? ==> r.value.0.Valid()
  {
    var n := Span(s, IsDigit);
    if n == 0 then None
    else
      var t := if Starts(s[n..], ',') then s[n + 1..] else s[n..];
      var m := Span(t, IsDigit);
      Some((Range(s[..n], t[..m]), t[m..]))
  }

  /** What follows `token` in `s`, if `s` begins with it. */
  function Expect(s: string, token: string): Option<string> {
    if token <= s then Some(s[|token|..]) else None
  }

  lemma ExpectToken(token: string, rest: string)
    ensures Expect(token + rest, token) == Some(rest)
  {
    Parts(token, rest);
  }

  function ParseHeader(line: string): (r: Option<Header>)
    ensures r.Some? ==> r.value.Valid()
  {
    match Expect(line, "@@ -")
    case None => None
    case Some(s) =>
      match ParseRange(s)
      case None => None
      case Some((minus, t)) => ParsePlus(minus, t)
  }

  function ParsePlus(minus: Range, s: string): (r: Option<Header>)
    requires minus.Valid()
    ensures r.Some? ==> r.value.Valid()
  {
    match Expect(s, " +")
    case None => None
    case Some(t) =>
      match ParseRange(t)
      case None => None
      case Some((plus, u)) =>
        match Expect(u, " @@")
        case None => None
        case Some(rest) => Some(Header(minus, plus, rest))
  }

  lemma ParseUncounted(start: string, rest: string)
    requires start != "" && AllIn(start, IsDigit) && Starts(rest, ' ')
    ensures ParseRange(start + rest) == Some((Range(start, ""), rest))
  {
    SpanOfRun(start, rest, IsDigit);
    Parts(start, rest);
    assert Span(rest, IsDigit) == 0;
    Whole(rest);
  }

  lemma ParseCounted(start: string, count: string, rest: string)
    requires start != "" && AllIn(start, IsDigit) && AllIn(count, IsDigit) && Starts(rest, ' ')
    ensures ParseRange(start + ([','] + (count + rest))) == Some((Range(start, count), rest))
  {
    var tail := [','] + (count + rest);
    var s := start + tail;
    SpanOfRun(start, tail, IsDigit);
    Parts(start, tail);
    AfterComma(s, |start|, count + rest);
    SpanOfRun(count, rest, IsDigit);
    Parts(count, rest);
  }

  lemma AfterComma(s: string, n: nat, t: string)
    requires n <= |s| && s[n..] == [','] + t
    ensures s[n + 1..] == t
  {
    RestOfRest(s, n, 1);
    ConsRest(',', t);
  }

  lemma ParseRangeRender(r: Range, rest: string)
    requires r.Valid() && Starts(rest, ' ')
    ensures ParseRange(r.Render() + rest) == Some((r, rest))
  {
    if r.count == "" {
      ParseUncounted(r.start, rest);
      assert r.Render() == r.start;
    } else {
      ParseCounted(r.start, r.count, rest);
      assert r.Render() + rest == r.start + ([','] + (r.count + rest));
    }
  }

  /** Reading a header back gives the fields it was written from. */
  lemma ParseHeaderRender(h: Header)
    requires h.Valid()
    ensures ParseHeader(h.Render()) == Some(h)
  {
    var t := " @@" + h.rest;
    var s := " +" + (h.plus.Render() + t);
    RenderNested(h);
    ExpectToken("@@ -", h.minus.Render() + s);
    ParseRangeRender(h.minus, s);
    ParsePlusRender(h);
  }

  lemma ParsePlusRender(h: Header)
    requires h.Valid()
    ensures ParsePlus(h.minus, " +" + (h.plus.Render() + (" @@" + h.rest))) == Some(h)
  {
    var t := " @@" + h.rest;
    ExpectToken(" +", h.plus.Render() + t);
    ParseRangeRender(h.plus, t);
    ExpectToken(" @@", h.rest);
  }

  lemma RenderStart(h: Header)
    ensures |h.Render()| >= 2 && h.Render()[0] == '@' && h.Render()[1] == '@'
  {
    RenderNested(h);
  }

  lemma RenderNested(h: Header)
    ensures h.Render() == "@@ -" + (h.minus.Render() + (" +" + (h.plus.Render() + (" @@" + h.rest))))
  {
  }

  /** The header line of the reversed hunk; a line that is no header stays. */
  function ReverseHeader(line: string): (r: string)
  {
    match ParseHeader(line)
    case None => line
    case Some(h) => h.Swap().Render()
  }

  /** A range as a header line may write it: with a comma before a count, and possibly with
      a comma and no count. */
  function Written(r: Range, comma: bool): string {
    r.start + ((if comma then [','] else []) + r.count)
  }

  /** `line` is a header line with the fields of `h`. */
  predicate IsHeader(line: string, h: Header, minusComma: bool, plusComma: bool) {
    && h.Valid()
    && (h.minus.count != "" ==> minusComma)
    && (h.plus.count != "" ==> plusComma)
    && line == "@@ -" + (Written(h.minus, minusComma) + (" +" + (Written(h.plus, plusComma) + (" @@" + h.rest))))
  }

  lemma ParseWritten(r: Range, comma: bool, rest: string)
    requires r.Valid() && (r.count != "" ==> comma) && Starts(rest, ' ')
    ensures ParseRange(Written(r, comma) + rest) == Some((r, rest))
  {
    if comma {
      ParseCounted(r.start, r.count, rest);
      Assoc(r.start, [','] + r.count, rest);
      Assoc([','], r.count, rest);
    } else {
      ParseUncounted(r.start, rest);
      Whole(r.start);
    }
  }

  lemma ParseWrittenPlus(minus: Range, plus: Range, comma: bool, rest: string)
    requires minus.Valid() && plus.Valid() && (plus.count != "" ==> comma)
    ensures ParsePlus(minus, " +" + (Written(plus, comma) + (" @@" + rest))) == Some(Header(minus, plus, rest))
  {
    hide Written, ParseRange;
    var t := " @@" + rest;
    ExpectToken(" +", Written(plus, comma) + t);
    ParseWritten(plus, comma, t);
    ExpectToken(" @@", rest);
  }

  lemma ParseIsHeader(line: string, h: Header, minusComma: bool, plusComma: bool)
    requires IsHeader(line, h, minusComma, plusComma)
    ensures ParseHeader(line) == Some(h)
  {
    hide Written, ParseRange, ParsePlus;
    var s := " +" + (Written(h.plus, plusComma) + (" @@" + h.rest));
    ExpectToken("@@ -", Written(h.minus, minusComma) + s);
    ParseWritten(h.minus, minusComma, s);
    ParseWrittenPlus(h.minus, h.plus, plusComma, h.rest);
  }

  lemma ExpectParts(s: string, token: string)
    ensures Expect(s, token).Some? ==> s == token + Expect(s, token).value
  {
    if token <= s {
      Cut(s, |token|);
    }
  }

  lemma RangeParts(s: string) returns (comma: bool)
    requires ParseRange(s).Some?
    ensures var (r, t) := ParseRange(s).value;
      (r.count != "" ==> comma) && s == Written(r, comma) + t
  {
    var n := Span(s, IsDigit);
    comma := Starts(s[n..], ',');
    Cut(s, n);
    if comma {
      var t := s[n + 1..];
      var m := Span(t, IsDigit);
      CommaParts(s, n, m);
    } else {
      NoSpan(s[n..]);
      Whole(s[n..]);
      Whole(s[..n]);
    }
  }

  lemma NoSpan(s: string)
    requires s == "" || !IsDigit(s[0])
    ensures Span(s, IsDigit) == 0
  {
  }

  lemma CommaParts(s: string, n: nat, m: nat)
    requires n < |s| && s[n] == ',' && m <= |s[n + 1..]|
    ensures s == (s[..n] + ([','] + s[n + 1..][..m])) + s[n + 1..][m..]
  {
    var t := s[n + 1..];
    Cut(s, n);
    assert s[n..] == [','] + t;
    Cut(t, m);
    Assoc([','], t[..m], t[m..]);
    Assoc(s[..n], [','] + t[..m], t[m..]);
  }

  lemma HeaderParts(line: string) returns (minusComma: bool, plusComma: bool)
    requires ParseHeader(line).Some?
    ensures IsHeader(line, ParseHeader(line).value, minusComma, plusComma)
  {
    hide Written, ParseRange, ParsePlus;
    ExpectParts(line, "@@ -");
    var s := Expect(line, "@@ -").value;
    minusComma := RangeParts(s);
    var (minus, t) := ParseRange(s).value;
    plusComma := PlusParts(minus, t);
    var h := ParseHeader(line).value;
    var tail := " +" + (Written(h.plus, plusComma) + (" @@" + h.rest));
    assert line == "@@ -" + (Written(h.minus, minusComma) + tail);
  }

  lemma PlusParts(minus: Range, s: string) returns (comma: bool)
    requires minus.Valid() && ParsePlus(minus, s).Some?
    ensures var h := ParsePlus(minus, s).value;
      && h.minus == minus && (h.plus.count != "" ==> comma)
      && s == " +" + (Written(h.plus, comma) + (" @@" + h.rest))
  {
    hide Written, ParseRange;
    ExpectParts(s, " +");
    var t := Expect(s, " +").value;
    comma := RangeParts(t);
    ExpectParts(ParseRange(t).value.1, " @@");
  }

  lemma RenderIsHeader(h: Header)
    requires h.Valid()
    ensures IsHeader(h.Render(), h, h.minus.count != "", h.plus.count != "")
  {
    RenderNested(h);
    RenderWritten(h.minus);
    RenderWritten(h.plus);
  }

  lemma RenderWritten(r: Range)
    ensures r.Render() == Written(r, r.count != "")
  {
    Whole(r.start);
  }

  /** A header line becomes the line of the exchanged ranges, each with a comma exactly
      where it has a count; a line of any other form stays as it is. */
  lemma HeaderReversed(line: string)
    ensures forall h, a, b :: IsHeader(line, h, a, b) ==>
      IsHeader(ReverseHeader(line), Header(h.plus, h.minus, h.rest), h.plus.count != "", h.minus.count != "")
    ensures (forall h, a, b :: !IsHeader(line, h, a, b)) ==> ReverseHeader(line) == line
  {
    hide IsHeader;
    forall h, a, b | IsHeader(line, h, a, b)
      ensures IsHeader(ReverseHeader(line), Header(h.plus, h.minus, h.rest), h.plus.count != "", h.minus.count != "")
    {
      ParseIsHeader(line, h, a, b);
      RenderIsHeader(h.Swap());
    }
    if ParseHeader(line).Some? {
      var a, b := HeaderParts(line);
    }
  }

  // ---------------------------------------------------------------- index lines

  /** The two blob hashes of an `index` line, and what follows them. */
  datatype Blobs = Blobs(minus: string, plus: string, rest: string) {
    predicate Valid() {
      && minus != "" && AllIn(minus, IsHex)
      && plus != "" && AllIn(plus, IsHex)
      && (rest == "" || !IsHex(rest[0]))
    }

    function Render(): string {
      "index " + (minus + (".." + (plus + rest)))
    }
  }

  function ParseIndex(line: string): (r: Option<Blobs>)
    ensures r.Some? ==> r.value.Valid()
  {
    match Expect(line, "index ")
    case None => None
    case Some(s) =>
      var n := Span(s, IsHex);
      match Expect(s[n..], "..")
      case None => None
      case Some(t) =>
        var m := Span(t, IsHex);
        if n == 0 || m == 0 then None else Some(Blobs(s[..n], t[..m], t[m..]))
  }

  lemma ParseIndexParts(line: string)
    ensures ParseIndex(line).Some? ==> line == ParseIndex(line).value.Render()
  {
    if ParseIndex(line).Some? {
      ExpectParts(line, "index ");
      var s := Expect(line, "index ").value;
      var n := Span(s, IsHex);
      Cut(s, n);
      ExpectParts(s[n..], "..");
      var t := Expect(s[n..], "..").value;
      Cut(t, Span(t, IsHex));
    }
  }

  lemma ParseIndexRender(b: Blobs)
    requires b.Valid()
    ensures ParseIndex(b.Render()) == Some(b)
  {
    var t := b.plus + b.rest;
    var s := b.minus + (".." + t);
    ExpectToken("index ", s);
    SpanOfRun(b.minus, ".." + t, IsHex);
    Parts(b.minus, ".." + t);
    ExpectToken("..", t);
    SpanOfRun(b.plus, b.rest, IsHex);
    Parts(b.plus, b.rest);
  }

  function ReverseIndex(line: string): (r: string)
    requires "index " <= line
    ensures "index " <= r
  {
    match ParseIndex(line)
    case None => line
    case Some(b) => Blobs(b.plus, b.minus, b.rest).Render()
  }

  /** An index line comes out with its two hashes exchanged and the rest as it was. */
  lemma IndexReversed(minus: string, plus: string, rest: string)
    requires Blobs(minus, plus, rest).Valid()
    ensures ReverseIndex("index " + (minus + (".." + (plus + rest)))) == "index " + (plus + (".." + (minus + rest)))
  {
    ParseIndexRender(Blobs(minus, plus, rest));
  }

  /** A line that begins like an index line and has no two hashes stays as it is. */
  lemma OtherIndexStays(line: string)
    requires "index " <= line
    requires forall b: Blobs :: b.Valid() ==> line != b.Render()
    ensures ReverseIndex(line) == line
  {
    ParseIndexParts(line);
  }

  /** Swapping the two blob hashes twice restores the line, character for character. */
  lemma ReverseIndexTwice(line: string)
    requires "index " <= line
    ensures ReverseIndex(ReverseIndex(line)) == line
  {
    match ParseIndex(line)
    case None =>
    case Some(b) =>
      ParseIndexParts(line);
      ParseIndexRender(Blobs(b.plus, b.minus, b.rest));
  }
}

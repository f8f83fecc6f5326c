/** Theme compaction: the model splits the new steps into themes, finished themes become
    summaries, and of the theme in progress the recent steps stay verbatim. */
module Subtasks {
  import opened Counts
  import DiffText
  import opened Optional
  import opened History
  import opened Seqs

  // ---------------------------------------------------------------- messages and steps

  datatype Step = Step(role: Role, content: string, calls: seq<string>, callId: string)

  function StepOf(m: Message): Step {
    Step(m.role, m.content,
         if m.role.Assistant? then m.calls else [],
         if m.role.Tool? then m.callId else "")
  }

  /** The messages that count as steps: not the system message, not the first user
      message (the task), and no other roles. */
  function StepMessages(msgs: Messages, seenTask: bool): Messages {
    if msgs == [] then []
    else
      match msgs[0].role
      case System => StepMessages(msgs[1..], seenTask)
      case Exit => StepMessages(msgs[1..], seenTask)
      case User =>
        (if seenTask then [msgs[0]] else []) + StepMessages(msgs[1..], true)
      case _ => [msgs[0]] + StepMessages(msgs[1..], seenTask)
  }

  function Steps(msgs: Messages): (steps: seq<Step>)
    ensures |steps| == |msgs|
    ensures forall i :: 0 <= i < |msgs| ==> steps[i] == StepOf(msgs[i])
  {
    seq(|msgs|, i requires 0 <= i < |msgs| => StepOf(msgs[i]))
  }

  lemma NextStepMessage(msgs: Messages, i: nat, seenTask: bool)
    requires i < |msgs|
    ensures var rest := msgs[i + 1..]; var role := msgs[i].role;
      StepMessages(msgs[i..], seenTask)
      == if role.System? || role.Exit? then StepMessages(rest, seenTask)
         else if role.User? && !seenTask then StepMessages(rest, true)
         else [msgs[i]] + StepMessages(rest, seenTask)
  {
    RestOfRest(msgs, i, 1);
  }

  /** `messages_to_steps`. */
  method MessagesToSteps(messages: Messages) returns (steps: seq<Step>)
    ensures steps == Steps(StepMessages(messages, false))
  {
    steps := [];
    var seenTask := false;
    ghost var taken: Messages := [];
    var i := 0;
    while i < |messages|
      invariant 0 <= i <= |messages|
      invariant StepMessages(messages, false) == taken + StepMessages(messages[i..], seenTask)
      invariant steps == Steps(taken)
    {
      var m := messages[i];
      NextStepMessage(messages, i, seenTask);
      Assoc(taken, [m], StepMessages(messages[i + 1..], seenTask));
      i := i + 1;
      if m.role.System? {
        continue;
      }
      if m.role.User? {
        if !seenTask {
          seenTask := true;
          continue;
        }
        steps := steps + [Step(User, m.content, [], "")];
        taken := taken + [m];
      } else if m.role.Assistant? {
        steps := steps + [Step(Assistant, m.content, m.calls, "")];
        taken := taken + [m];
      } else if m.role.Tool? {
        steps := steps + [Step(Tool, m.content, [], m.callId)];
        taken := taken + [m];
      }
    }
  }

  /** `_message_for_step`: the message that step `idx` was made from, and None, for the
      IndexError, exactly when there is no such step. */
  method MessageForStep(idx: int, middle: Messages) returns (r: Option<Message>)
    ensures var all := StepMessages(middle, false);
      r == if 0 <= idx < |all| then Some(all[idx]) else None
  {
    var stepIdx := 0;
    var seenTask := false;
    ghost var all := StepMessages(middle, false);
    var i := 0;
    while i < |middle|
      invariant 0 <= i <= |middle|
      invariant 0 <= stepIdx <= |all| && all[stepIdx..] == StepMessages(middle[i..], seenTask)
      invariant idx < 0 || stepIdx <= idx
    {
      var m := middle[i];
      assert middle[i..][1..] == middle[i + 1..];
      i := i + 1;
      if m.role.System? {
        continue;
      }
      if m.role.User? {
        if !seenTask {
          seenTask := true;
          continue;
        }
      }
      if m.role.Assistant? || m.role.Tool? || (m.role.User? && seenTask) {
        assert all[stepIdx..][0] == m;
        if stepIdx == idx {
          return Some(m);
        }
        stepIdx := stepIdx + 1;
      }
    }
    return None;
  }

  /** Whether message `k` is a step, without a running flag: a call or a reply, or a user
      message that is not the first. */
  predicate IsStep(msgs: Messages, k: nat)
    requires k < |msgs|
  {
    || msgs[k].role.Assistant?
    || msgs[k].role.Tool?
    || (msgs[k].role.User? && exists j :: 0 <= j < k && msgs[j].role.User?)
  }

  function StepsFrom(msgs: Messages, k: nat): Messages
    requires k <= |msgs|
    decreases |msgs| - k
  {
    if k == |msgs| then [] else (if IsStep(msgs, k) then [msgs[k]] else []) + StepsFrom(msgs, k + 1)
  }

  lemma {:induction false} StepMessagesFrom(msgs: Messages, k: nat)
    requires k <= |msgs|
    ensures StepMessages(msgs[k..], exists j :: 0 <= j < k && msgs[j].role.User?) == StepsFrom(msgs, k)
    decreases |msgs| - k
  {
    if k < |msgs| {
      assert msgs[k..][1..] == msgs[k + 1..];
      StepMessagesFrom(msgs, k + 1);
    }
  }

  /** Both loops over the messages, each with its own flag, number the same messages: in
      order, those that `IsStep` describes. */
  lemma StepMessagesAreSteps(msgs: Messages)
    ensures StepMessages(msgs, false) == StepsFrom(msgs, 0)
  {
    assert msgs[0..] == msgs;
    StepMessagesFrom(msgs, 0);
  }

  // ---------------------------------------------------------------- themes

  datatype Theme = Theme(name: string, start: int, end: int, inProgress: bool, summary: Option<string>) {
    predicate Verbatim() {
      inProgress || summary.None? || summary.value == ""
    }
  }

  /** Python's stable `sorted` by start index. */
  function Insert(t: Theme, themes: seq<Theme>): seq<Theme> {
    if themes == [] || t.start <= themes[0].start then [t] + themes
    else [themes[0]] + Insert(t, themes[1..])
  }

  function SortThemes(themes: seq<Theme>): seq<Theme> {
    if themes == [] then [] else Insert(themes[0], SortThemes(themes[1..]))
  }

  predicate ByStart(themes: seq<Theme>) {
    forall i, j :: 0 <= i < j < |themes| ==> themes[i].start <= themes[j].start
  }

  lemma {:induction false} InsertSorts(t: Theme, themes: seq<Theme>)
    requires ByStart(themes)
    ensures ByStart(Insert(t, themes))
  {
    if themes == [] || t.start <= themes[0].start {
    } else {
      var rest := Insert(t, themes[1..]);
      InsertSorts(t, themes[1..]);
      forall x | x in rest ensures themes[0].start <= x.start {
        FromInsert(t, themes[1..], x);
      }
    }
  }

  lemma {:induction false} InsertAdds(t: Theme, themes: seq<Theme>)
    ensures multiset(Insert(t, themes)) == multiset{t} + multiset(themes)
  {
    if themes != [] && t.start > themes[0].start {
      InsertAdds(t, themes[1..]);
      Cut(themes, 1);
      assert themes[..1] == [themes[0]];
    }
  }

  lemma {:induction false} FromInsert(t: Theme, themes: seq<Theme>, x: Theme)
    requires x in Insert(t, themes)
    ensures x == t || x in themes
  {
    if themes != [] && t.start > themes[0].start && x != themes[0] {
      FromInsert(t, themes[1..], x);
    }
  }

  lemma {:induction false} SortedAndSame(themes: seq<Theme>)
    ensures ByStart(SortThemes(themes))
    ensures multiset(SortThemes(themes)) == multiset(themes)
  {
    if themes != [] {
      SortedAndSame(themes[1..]);
      InsertSorts(themes[0], SortThemes(themes[1..]));
      InsertAdds(themes[0], SortThemes(themes[1..]));
      Cut(themes, 1);
      assert themes[..1] == [themes[0]];
    }
  }

  /** The themes that begin at step `start`. */
  function At(themes: seq<Theme>, start: int): seq<Theme> {
    if themes == [] then [] else (if themes[0].start == start then [themes[0]] else []) + At(themes[1..], start)
  }

  lemma {:induction false} InsertInFront(t: Theme, themes: seq<Theme>, start: int)
    ensures At(Insert(t, themes), start) == At([t] + themes, start)
  {
    ConsRest(t, themes);
    if themes != [] && t.start > themes[0].start {
      ConsRest(themes[0], Insert(t, themes[1..]));
      InsertInFront(t, themes[1..], start);
      ConsRest(t, themes[1..]);
    }
  }

  /** Themes with the same start stay in the order the model gave them. */
  lemma {:induction false} SortIsStable(themes: seq<Theme>, start: int)
    ensures At(SortThemes(themes), start) == At(themes, start)
  {
    if themes != [] {
      SortIsStable(themes[1..], start);
      InsertInFront(themes[0], SortThemes(themes[1..]), start);
      ConsRest(themes[0], SortThemes(themes[1..]));
    }
  }

  function Clamp(i: int, n: nat): (r: int)
    requires n > 0
    ensures 0 <= r < n
    ensures 0 <= i < n ==> r == i
  {
    var low := if i < n - 1 then i else n - 1;
    if low > 0 then low else 0
  }

  /** Both bounds clamped into the steps and put in order. */
  function Bounds(t: Theme, n: nat): (b: (nat, nat))
    requires n > 0
    ensures b.0 <= b.1 < n
  {
    var s, e := Clamp(t.start, n), Clamp(t.end, n);
    if e < s then (e, s) else (s, e)
  }

  // ---------------------------------------------------------------- what becomes of a theme

  const HEADER := "<subtask-summary> "

  predicate IsSummary(m: Message) {
    HEADER <= m.content
  }

  function SummaryMessage(text: string): Message {
    Message(User, HEADER + text, "", [], "")
  }

  function Decimal(n: nat): string {
    var digit := [(n % 10) as char + '0'];
    if n < 10 then digit else Decimal(n / 10) + digit
  }

  function FoldNote(t: Theme, start: nat, fold: nat, end: nat): Message
    requires fold > 0
  {
    SummaryMessage("Progress on subtask '" + t.name + "' (steps " + Decimal(start) + ".." + Decimal(start + fold - 1)
                   + " of " + Decimal(end + 1) + ", " + Decimal(fold) + " steps) is summarized below; continue from "
                   + "step " + Decimal(start + fold) + ".")
  }

  function LastNote(start: nat, fold: nat): Message
    requires fold > 0
  {
    SummaryMessage("Earlier progress on this task (steps " + Decimal(start) + ".." + Decimal(start + fold - 1)
                   + ") is folded into this summary.")
  }

  /** Messages put out, and how many steps are counted as compressed and as kept. */
  datatype Blocks = Blocks(messages: Messages, compressed: int, kept: int) {
    function Plus(b: Blocks): Blocks {
      Blocks(messages + b.messages, compressed + b.compressed, kept + b.kept)
    }
  }

  function Min(a: int, b: int): int {
    if a < b then a else b
  }

  function Max(a: int, b: int): int {
    if a < b then b else a
  }

  /** The recent tail of the steps `start`..`end`, and a note if older ones are folded. */
  function VerbatimBlocks(t: Theme, start: nat, end: nat, steps: Messages, keepRecent: int): Blocks
    requires start <= end < |steps|
  {
    var total := end - start + 1;
    var fold := total - Min(total, keepRecent);
    var kept := Slice(steps, start + fold, end + 1);
    Blocks(kept + (if fold > 0 then [FoldNote(t, start, fold, end)] else []), fold, |kept|)
  }

  function ThemeBlocks(t: Theme, steps: Messages, keepRecent: int): Blocks
    requires steps != []
  {
    var (start, end) := Bounds(t, |steps|);
    if t.Verbatim() then VerbatimBlocks(t, start, end, steps, keepRecent)
    else Blocks([SummaryMessage(t.summary.value)], end - start + 1, 0)
  }

  function AllBlocks(themes: seq<Theme>, steps: Messages, keepRecent: int): Blocks
    requires steps != []
  {
    if themes == [] then Blocks([], 0, 0)
    else ThemeBlocks(themes[0], steps, keepRecent).Plus(AllBlocks(themes[1..], steps, keepRecent))
  }

  predicate AnyInProgress(themes: seq<Theme>) {
    exists t :: t in themes && t.inProgress
  }

  /** What is put out once more for the last theme when no theme is in progress; its
      bounds are clamped but not put in order. */
  function LastBlocks(last: Theme, steps: Messages, keepRecent: int): Blocks
    requires steps != []
  {
    var start, end := Clamp(last.start, |steps|), Clamp(last.end, |steps|);
    var fold := Max(0, end - start + 1 - Max(1, keepRecent));
    var kept := Slice(steps, start + fold, end + 1);
    Blocks(kept + (if fold > 0 then [LastNote(start, fold)] else []), fold, |kept|)
  }

  function OutputBlocks(themes: seq<Theme>, steps: Messages, keepRecent: int): Blocks
    requires steps != [] && themes != []
  {
    var all := AllBlocks(themes, steps, keepRecent);
    if AnyInProgress(themes) then all
    else all.Plus(LastBlocks(themes[|themes| - 1], steps, keepRecent))
  }

  function Summaries(msgs: Messages): Messages {
    if msgs == [] then [] else (if IsSummary(msgs[0]) then [msgs[0]] else []) + Summaries(msgs[1..])
  }

  function Newer(msgs: Messages): Messages {
    if msgs == [] then [] else (if IsSummary(msgs[0]) then [] else [msgs[0]]) + Newer(msgs[1..])
  }

  datatype Result = Untouched(failed: bool) | Compacted(messages: Messages, blocks: Blocks)

  /** What `compact` makes of a history; `parsed` are the themes the model gave, or None
      if the summarizer failed or gave nothing usable. */
  function CompactionOf(messages: Messages, parsed: Option<seq<Theme>>, keepRecent: int): Result
    requires parsed.Some? ==> parsed.value != []
  {
    var middle := SplitHeadTail(messages, 2, 0).middle;
    var steps := StepMessages(Newer(middle), false);
    if middle == [] || steps == [] then Untouched(false)
    else if parsed.None? then Untouched(true)
    else
      var blocks := OutputBlocks(SortThemes(parsed.value), steps, keepRecent);
      Compacted(Slice(messages, 0, 2) + Summaries(middle) + blocks.messages, blocks)
  }

  /** The steps `from` up to and including `to`, each looked up by its index. */
  method CopySteps(newer: Messages, from: nat, to: int) returns (copied: Messages)
    requires to < |StepMessages(newer, false)|
    ensures to + 1 >= 0 ==> copied == Slice(StepMessages(newer, false), from, to + 1)
  {
    ghost var steps := StepMessages(newer, false);
    copied := [];
    var i := from;
    while i < to + 1
      invariant from <= i && (i <= to + 1 || i == from)
      invariant copied == if i == from then [] else steps[from..i]
    {
      var m := MessageForStep(i, newer);
      copied := copied + [m.value];
      i := i + 1;
    }
  }

  /** `compact`. Every lookup of a step succeeds, whatever ranges the model gave. */
  method Compact(messages: Messages, parsed: Option<seq<Theme>>, keepRecent: int) returns (r: Result)
    requires parsed.Some? ==> parsed.value != []
    ensures r == CompactionOf(messages, parsed, keepRecent)
  {
    var middle := SplitHeadTail(messages, 2, 0).middle;
    if middle == [] {
      return Untouched(false);
    }
    var newer := Newer(middle);
    var steps := MessagesToSteps(newer);
    if steps == [] {
      return Untouched(false);
    }
    if parsed.None? {
      return Untouched(true);
    }
    var themes := SortThemes(parsed.value);
    SortKeepsCount(parsed.value);
    var blocks := CompactThemes(themes, newer, |steps|, keepRecent);
    if !AnyInProgress(themes) {
      var more := KeepLast(themes[|themes| - 1], newer, |steps|, keepRecent);
      blocks := blocks.Plus(more);
    }
    return Compacted(Slice(messages, 0, 2) + Summaries(middle) + blocks.messages, blocks);
  }

  lemma SortKeepsCount(themes: seq<Theme>)
    ensures |SortThemes(themes)| == |themes|
  {
    SortedAndSame(themes);
    assert |multiset(SortThemes(themes))| == |multiset(themes)|;
  }

  /** The loop over the themes. */
  method CompactThemes(themes: seq<Theme>, newer: Messages, nSteps: nat, keepRecent: int) returns (blocks: Blocks)
    requires nSteps == |StepMessages(newer, false)| > 0
    ensures blocks == AllBlocks(themes, StepMessages(newer, false), keepRecent)
  {
    ghost var all := StepMessages(newer, false);
    blocks := Blocks([], 0, 0);
    var k := 0;
    while k < |themes|
      invariant 0 <= k <= |themes|
      invariant blocks.Plus(AllBlocks(themes[k..], all, keepRecent)) == AllBlocks(themes, all, keepRecent)
    {
      var next := CompactTheme(themes[k], newer, nSteps, keepRecent);
      assert themes[k..][1..] == themes[k + 1..];
      PlusAssociates(blocks, next, AllBlocks(themes[k + 1..], all, keepRecent));
      blocks := blocks.Plus(next);
      k := k + 1;
    }
  }

  /** The fallback for the last theme. */
  method KeepLast(last: Theme, newer: Messages, nSteps: nat, keepRecent: int) returns (b: Blocks)
    requires nSteps == |StepMessages(newer, false)| > 0
    ensures b == LastBlocks(last, StepMessages(newer, false), keepRecent)
  {
    var start, end := Clamp(last.start, nSteps), Clamp(last.end, nSteps);
    var fold := Max(0, end - start + 1 - Max(1, keepRecent));
    var kept := CopySteps(newer, start + fold, end);
    b := Blocks(kept + (if fold > 0 then [LastNote(start, fold)] else []), fold, |kept|);
  }

  /** One round of the loop over the themes. */
  method CompactTheme(t: Theme, newer: Messages, nSteps: nat, keepRecent: int) returns (b: Blocks)
    requires nSteps == |StepMessages(newer, false)| > 0
    ensures b == ThemeBlocks(t, StepMessages(newer, false), keepRecent)
  {
    var start, end := Clamp(t.start, nSteps), Clamp(t.end, nSteps);
    if end < start {
      start, end := end, start;
    }
    if t.Verbatim() {
      b := KeepRecent(t, start, end, newer, keepRecent);
    } else {
      b := Blocks([SummaryMessage(t.summary.value)], end - start + 1, 0);
    }
  }

  method KeepRecent(t: Theme, start: nat, end: nat, newer: Messages, keepRecent: int) returns (b: Blocks)
    requires start <= end < |StepMessages(newer, false)|
    ensures b == VerbatimBlocks(t, start, end, StepMessages(newer, false), keepRecent)
  {
    var total := end - start + 1;
    var fold := total - Min(total, keepRecent);
    var kept := CopySteps(newer, start + fold, end);
    b := Blocks(kept + (if fold > 0 then [FoldNote(t, start, fold, end)] else []), fold, |kept|);
  }

  lemma PlusAssociates(a: Blocks, b: Blocks, c: Blocks)
    ensures a.Plus(b).Plus(c) == a.Plus(b.Plus(c))
  {
  }

  // ---------------------------------------------------------------- what is put out

  lemma BoundsWithin(t: Theme, n: nat)
    requires 0 <= t.start <= t.end < n
    ensures Bounds(t, n) == (t.start, t.end)
  {
  }

  lemma SliceWithin<T>(s: seq<T>, a: nat, b: nat)
    requires a <= b <= |s|
    ensures Slice(s, a, b) == s[a..b]
  {
  }

  /** A step tells role and content of its message, the calls of an assistant and the call
      that a reply answers. */
  lemma StepTells(msgs: Messages, i: nat)
    requires i < |msgs|
    ensures var step, m := Steps(msgs)[i], msgs[i];
      && step.role == m.role && step.content == m.content
      && step.calls == (if m.role.Assistant? then m.calls else [])
      && step.callId == (if m.role.Tool? then m.callId else "")
  {
  }

  /** A bound below the steps becomes the first step, one above them the last. */
  lemma BoundsAre(t: Theme, n: nat)
    requires n > 0
    ensures Clamp(t.start, n) == if t.start < 0 then 0 else if t.start >= n then n - 1 else t.start
    ensures Bounds(t, n) == (Clamp(t.start, n), Clamp(t.end, n)) || Bounds(t, n) == (Clamp(t.end, n), Clamp(t.start, n))
  {
  }

  lemma {:induction false} DecimalReadsBack(n: nat)
    ensures DiffText.Number(Decimal(n)) == n
    ensures n > 0 ==> Decimal(n) != "" && Decimal(n)[0] != '0'
  {
    var digit := [(n % 10) as char + '0'];
    assert DiffText.Number([]) == 0;
    if n < 10 {
      assert digit[..0] == [];
    } else {
      DecimalReadsBack(n / 10);
      assert (Decimal(n / 10) + digit)[..|Decimal(n / 10)|] == Decimal(n / 10);
    }
  }

  /** The messages put out for a stretch of steps of which `kept` stay: those, verbatim, and
      behind them one message with the header if some were folded. */
  predicate ShowsRecent(out: Messages, steps: Messages, end: nat, size: nat, kept: nat)
    requires kept <= size <= end + 1 <= |steps|
  {
    && |out| == kept + One(size > kept)
    && out[..kept] == steps[end + 1 - kept..end + 1]
    && (size > kept ==> out[kept].role.User? && IsSummary(out[kept]))
  }

  /** What becomes of a theme within the steps: with a summary and not in progress it is one
      message, the header and that summary; else its `keepRecent` last steps stay. */
  lemma ThemeBlocksAre(t: Theme, steps: Messages, keepRecent: nat)
    requires 0 <= t.start <= t.end < |steps|
    ensures var b := ThemeBlocks(t, steps, keepRecent);
      var size := t.end - t.start + 1;
      var kept := if size < keepRecent then size else keepRecent;
      if !t.inProgress && t.summary.Some? && t.summary.value != "" then
        b == Blocks([Message(User, HEADER + t.summary.value, "", [], "")], size, 0)
      else
        b.kept == kept && b.compressed == size - kept && ShowsRecent(b.messages, steps, t.end, size, kept)
  {
    hide FoldNote, ShowsRecent, Slice;
    BoundsWithin(t, |steps|);
    if t.Verbatim() {
      var size := t.end - t.start + 1;
      var kept := Min(size, keepRecent);
      assert t.start + (size - kept) == t.end + 1 - kept;
      SliceWithin(steps, t.end + 1 - kept, t.end + 1);
      if size > kept {
        FoldNoteIsSummary(t, t.start, size - kept, t.end);
        RecentShown(steps, t.end, size, kept, FoldNote(t, t.start, size - kept, t.end));
      } else {
        AllShown(steps, t.end, size);
      }
    }
  }

  lemma FoldNoteIsSummary(t: Theme, start: nat, fold: nat, end: nat)
    requires fold > 0
    ensures var note := FoldNote(t, start, fold, end); note.role.User? && IsSummary(note)
  {
  }

  lemma LastNoteIsSummary(start: nat, fold: nat)
    requires fold > 0
    ensures var note := LastNote(start, fold); note.role.User? && IsSummary(note)
  {
  }

  /** The notes at one input: they tell which steps are folded, of how many, and where to go
      on. */
  lemma NoteTexts(name: string)
    ensures FoldNote(Theme(name, 2, 6, true, None), 2, 3, 6).content
         == HEADER + ("Progress on subtask '" + name + "' (steps " + "2" + ".." + "4" + " of " + "7" + ", " + "3"
                      + " steps) is summarized below; continue from " + "step " + "5" + ".")
    ensures LastNote(2, 3).content
         == HEADER + ("Earlier progress on this task (steps " + "2" + ".." + "4" + ") is folded into this summary.")
  {
    OneDigit(2);
    OneDigit(3);
    OneDigit(4);
    OneDigit(5);
    OneDigit(7);
  }

  lemma OneDigit(n: nat)
    requires n < 10
    ensures Decimal(n) == ["0123456789"[n]]
  {
  }

  lemma RecentShown(steps: Messages, end: nat, size: nat, kept: nat, note: Message)
    requires kept < size <= end + 1 <= |steps| && note.role.User? && IsSummary(note)
    ensures ShowsRecent(steps[end + 1 - kept..end + 1] + [note], steps, end, size, kept)
  {
    Parts(steps[end + 1 - kept..end + 1], [note]);
  }

  lemma AllShown(steps: Messages, end: nat, size: nat)
    requires size <= end + 1 <= |steps|
    ensures ShowsRecent(steps[end + 1 - size..end + 1] + [], steps, end, size, size)
  {
    Whole(steps[end + 1 - size..end + 1]);
  }

  /** What the fallback puts out for the last theme: at least one of its last steps, at most
      `keepRecent` of them; and nothing where the clamped bounds are out of order. */
  lemma LastBlocksAre(t: Theme, steps: Messages, keepRecent: int)
    requires steps != []
    ensures var start, end := Clamp(t.start, |steps|), Clamp(t.end, |steps|);
      var b := LastBlocks(t, steps, keepRecent);
      var most := if keepRecent > 1 then keepRecent else 1;
      if end < start then b == Blocks([], 0, 0)
      else
        var size := end - start + 1;
        var kept := if size < most then size else most;
        b.kept == kept && b.compressed == size - kept && ShowsRecent(b.messages, steps, end, size, kept)
  {
    hide LastNote, ShowsRecent, Slice;
    var start, end := Clamp(t.start, |steps|), Clamp(t.end, |steps|);
    if end < start {
      EmptySlice(steps, start, end + 1);
    } else {
      var size := end - start + 1;
      var kept := Min(size, Max(1, keepRecent));
      assert start + (size - kept) == end + 1 - kept;
      SliceWithin(steps, end + 1 - kept, end + 1);
      if size > kept {
        LastNoteIsSummary(start, size - kept);
        RecentShown(steps, end, size, kept, LastNote(start, size - kept));
      } else {
        AllShown(steps, end, size);
      }
    }
  }

  lemma EmptySlice<T>(s: seq<T>, a: nat, b: nat)
    requires b <= a
    ensures Slice(s, a, b) == []
  {
  }

  /** Every message is either a summary or newer than the last compaction, each in order. */
  lemma {:induction false} SummariesAndNewer(a: Messages, b: Messages)
    ensures Newer(a + b) == Newer(a) + Newer(b)
    ensures |a| == 1 ==> Newer(a) == (if HEADER <= a[0].content then [] else a)
    ensures |a| == 1 ==> Summaries(a) == (if HEADER <= a[0].content then a else [])
    ensures |Summaries(a)| + |Newer(a)| == |a|
  {
    if a == [] {
      Whole(b);
      Whole(Newer(b));
    } else {
      SummariesAndNewer(a[1..], b);
      assert (a + b)[1..] == a[1..] + b;
      Assoc(if IsSummary(a[0]) then [] else [a[0]], Newer(a[1..]), Newer(b));
    }
  }

  /** A history is left as it is exactly when there is no new step, or the summarizer failed
      or gave nothing usable, which is then said. */
  lemma UntouchedWhen(messages: Messages, parsed: Option<seq<Theme>>, keepRecent: int)
    requires parsed.Some? ==> parsed.value != []
    ensures var steps := StepMessages(Newer(Slice(messages, 2, |messages|)), false);
      var r := CompactionOf(messages, parsed, keepRecent);
      && (r.Compacted? <==> steps != [] && parsed.Some?)
      && (r == Untouched(true) <==> steps != [] && parsed.None?)
      && (r == Untouched(false) <==> steps == [])
  {
    assert SplitHeadTail(messages, 2, 0).middle == Slice(messages, 2, |messages|);
  }

  // ---------------------------------------------------------------- conservation of steps

  /** The themes cover the steps `from`..`n - 1`, one after the other. */
  predicate Tiles(themes: seq<Theme>, from: nat, n: nat) {
    if themes == [] then from == n
    else from == themes[0].start <= themes[0].end < n && Tiles(themes[1..], themes[0].end + 1, n)
  }

  lemma {:induction false} TiledCounts(themes: seq<Theme>, from: nat, steps: Messages, keepRecent: nat)
    requires steps != [] && Tiles(themes, from, |steps|)
    ensures var b := AllBlocks(themes, steps, keepRecent); b.compressed + b.kept == |steps| - from
  {
    if themes != [] {
      ThemeCounts(themes[0], steps, keepRecent);
      TiledCounts(themes[1..], themes[0].end + 1, steps, keepRecent);
    }
  }

  lemma ThemeCounts(t: Theme, steps: Messages, keepRecent: nat)
    requires 0 <= t.start <= t.end < |steps|
    ensures var b := ThemeBlocks(t, steps, keepRecent); b.compressed + b.kept == t.end - t.start + 1
  {
  }

  lemma {:induction false} LastTile(themes: seq<Theme>, from: nat, n: nat)
    requires themes != [] && Tiles(themes, from, n)
    ensures var last := themes[|themes| - 1]; from <= last.start <= last.end == n - 1
  {
    if |themes| > 1 {
      LastTile(themes[1..], themes[0].end + 1, n);
    }
  }

  /** When the sorted themes tile the steps, compressed and kept steps add up to all of
      them exactly when some theme is in progress; with none in progress the last theme
      is counted twice. */
  lemma StepsConserved(themes: seq<Theme>, steps: Messages, keepRecent: nat)
    requires steps != [] && themes != [] && Tiles(themes, 0, |steps|)
    ensures var b := OutputBlocks(themes, steps, keepRecent);
      var last := themes[|themes| - 1];
      && (b.compressed + b.kept == |steps| <==> AnyInProgress(themes))
      && b.compressed + b.kept == |steps| + (if AnyInProgress(themes) then 0 else last.end - last.start + 1)
  {
    TiledCounts(themes, 0, steps, keepRecent);
    LastTile(themes, 0, |steps|);
  }

  /** What the prompt asks of the model: finished themes with a summary, then one theme
      in progress. */
  predicate Contract(themes: seq<Theme>) {
    && themes != []
    && (forall t :: t in themes[..|themes| - 1] ==> !t.Verbatim())
    && themes[|themes| - 1].inProgress
  }

  function SummariesOf(themes: seq<Theme>): Messages
    requires forall t :: t in themes ==> !t.Verbatim()
  {
    if themes == [] then []
    else
      assert themes[0] in themes && !themes[0].Verbatim();
      [SummaryMessage(themes[0].summary.value)] + SummariesOf(themes[1..])
  }

  /** The steps kept of a theme in progress that lies within the steps. */
  lemma InProgressBlocks(t: Theme, steps: Messages, keepRecent: nat)
    requires 0 <= t.start <= t.end < |steps| && t.inProgress
    ensures ThemeBlocks(t, steps, keepRecent).messages == RecentOf(t, steps, keepRecent)
  {
    BoundsWithin(t, |steps|);
    assert ThemeBlocks(t, steps, keepRecent) == VerbatimBlocks(t, t.start, t.end, steps, keepRecent);
    RecentBlocks(t, steps, keepRecent);
  }

  lemma RecentBlocks(t: Theme, steps: Messages, keepRecent: nat)
    requires 0 <= t.start <= t.end < |steps|
    ensures VerbatimBlocks(t, t.start, t.end, steps, keepRecent).messages == RecentOf(t, steps, keepRecent)
  {
    hide FoldNote, LastNote;
    var size := t.end - t.start + 1;
    var recent := Min(size, keepRecent);
    assert t.start + (size - recent) == t.end + 1 - recent;
    SliceWithin(steps, t.end + 1 - recent, t.end + 1);
  }

  function RecentOf(t: Theme, steps: Messages, keepRecent: nat): Messages
    requires 0 <= t.start <= t.end < |steps|
  {
    var size := t.end - t.start + 1;
    var recent := Min(size, keepRecent);
    steps[t.end + 1 - recent..t.end + 1]
    + if size > keepRecent then [FoldNote(t, t.start, size - keepRecent, t.end)] else []
  }

  /** Under the contract the output is one summary per finished theme, in order, and then
      exactly the most recent steps of the theme in progress: all of them, or the last
      `keepRecent` and a note about those folded away. */
  lemma ContractOutput(themes: seq<Theme>, from: nat, steps: Messages, keepRecent: nat)
    requires steps != [] && Tiles(themes, from, |steps|) && Contract(themes)
    ensures var last := themes[|themes| - 1];
      && 0 <= last.start <= last.end == |steps| - 1
      && AnyInProgress(themes)
      && OutputBlocks(themes, steps, keepRecent).messages
         == SummariesOf(themes[..|themes| - 1]) + RecentOf(last, steps, keepRecent)
  {
    var last := themes[|themes| - 1];
    assert last in themes;
    LastTile(themes, from, |steps|);
    ContractBlocks(themes, from, steps, keepRecent);
  }

  lemma {:induction false} ContractBlocks(themes: seq<Theme>, from: nat, steps: Messages, keepRecent: nat)
    requires steps != [] && Tiles(themes, from, |steps|) && Contract(themes)
    ensures var last := themes[|themes| - 1];
      && 0 <= last.start <= last.end == |steps| - 1
      && AllBlocks(themes, steps, keepRecent).messages
         == SummariesOf(themes[..|themes| - 1]) + RecentOf(last, steps, keepRecent)
  {
    var last := themes[|themes| - 1];
    LastTile(themes, from, |steps|);
    if |themes| == 1 {
      assert themes[1..] == [] && themes[..0] == [];
      InProgressBlocks(last, steps, keepRecent);
    } else {
      var front := themes[..|themes| - 1];
      assert themes[1..][..|themes| - 2] == front[1..];
      ContractBlocks(themes[1..], themes[0].end + 1, steps, keepRecent);
      FirstFinished(themes, steps, keepRecent);
      Assoc([SummaryMessage(themes[0].summary.value)], SummariesOf(front[1..]), RecentOf(last, steps, keepRecent));
    }
  }

  lemma FirstFinished(themes: seq<Theme>, steps: Messages, keepRecent: nat)
    requires steps != [] && Contract(themes) && |themes| > 1
    ensures !themes[0].Verbatim()
    ensures var first := [SummaryMessage(themes[0].summary.value)]; var front := themes[..|themes| - 1];
      && AllBlocks(themes, steps, keepRecent).messages == first + AllBlocks(themes[1..], steps, keepRecent).messages
      && SummariesOf(front) == first + SummariesOf(front[1..])
  {
    var front := themes[..|themes| - 1];
    assert front[0] == themes[0] && front[0] in front;
  }

  lemma CompactionShape(messages: Messages, given: seq<Theme>, keepRecent: int)
    requires given != [] && StepMessages(Newer(Slice(messages, 2, |messages|)), false) != []
    ensures var body := Slice(messages, 2, |messages|);
      var blocks := OutputBlocks(SortThemes(given), StepMessages(Newer(body), false), keepRecent);
      CompactionOf(messages, Some(given), keepRecent)
      == Compacted(Slice(messages, 0, 2) + Summaries(body) + blocks.messages, blocks)
  {
    assert SplitHeadTail(messages, 2, 0).middle == Slice(messages, 2, |messages|);
  }

  /** A whole compaction under the contract, whatever order the model gave its themes in:
      head, earlier summaries, one summary per finished theme, recent steps; and the two
      counts add up to the number of steps. */
  lemma ThemeCompaction(messages: Messages, given: seq<Theme>, keepRecent: nat)
    requires given != []
    requires var steps := StepMessages(Newer(Slice(messages, 2, |messages|)), false);
      steps != [] && Tiles(SortThemes(given), 0, |steps|) && Contract(SortThemes(given))
    ensures var steps := StepMessages(Newer(Slice(messages, 2, |messages|)), false);
      var themes := SortThemes(given);
      var last := themes[|themes| - 1];
      var r := CompactionOf(messages, Some(given), keepRecent);
      && 0 <= last.start <= last.end == |steps| - 1
      && r.Compacted?
      && r.messages == Slice(messages, 0, 2) + Summaries(Slice(messages, 2, |messages|))
                       + (SummariesOf(themes[..|themes| - 1]) + RecentOf(last, steps, keepRecent))
      && r.blocks.compressed + r.blocks.kept == |steps|
  {
    hide FoldNote, LastNote, OutputBlocks, RecentOf, SortThemes, StepMessages, Newer, Summaries, CompactionOf;
    CompactionShape(messages, given, keepRecent);
    var steps := StepMessages(Newer(Slice(messages, 2, |messages|)), false);
    ContractOutput(SortThemes(given), 0, steps, keepRecent);
    StepsConserved(SortThemes(given), steps, keepRecent);
  }

  /** Under the contract every finished theme's own summary is in the output, as a user
      message of the header and that text, behind the head and the earlier summaries, in the
      order of the themes. */
  lemma SummaryTexts(messages: Messages, given: seq<Theme>, keepRecent: nat, i: nat)
    requires given != []
    requires var steps := StepMessages(Newer(Slice(messages, 2, |messages|)), false);
      steps != [] && Tiles(SortThemes(given), 0, |steps|) && Contract(SortThemes(given))
    requires i < |SortThemes(given)| - 1
    ensures var t := SortThemes(given)[i];
      var before := |Slice(messages, 0, 2)| + |Summaries(Slice(messages, 2, |messages|))|;
      var r := CompactionOf(messages, Some(given), keepRecent);
      && !t.inProgress && t.summary.Some? && r.Compacted?
      && before + i < |r.messages|
      && r.messages[before + i].role.User?
      && r.messages[before + i].content == HEADER + t.summary.value
  {
    hide CompactionOf, RecentOf, SortThemes, Tiles;
    var themes := SortThemes(given);
    var finished := themes[..|themes| - 1];
    ThemeCompaction(messages, given, keepRecent);
    SummaryText(finished, i);
    assert themes[i] in finished;
  }

  lemma {:induction false} SummaryText(themes: seq<Theme>, i: nat)
    requires forall t :: t in themes ==> !t.Verbatim()
    requires i < |themes|
    ensures |SummariesOf(themes)| == |themes| && themes[i].summary.Some?
    ensures SummariesOf(themes)[i] == Message(User, HEADER + themes[i].summary.value, "", [], "")
  {
    assert themes[0] in themes;
    SummariesCount(themes);
    if i > 0 {
      SummaryText(themes[1..], i - 1);
    }
  }

  lemma {:induction false} SummariesCount(themes: seq<Theme>)
    requires forall t :: t in themes ==> !t.Verbatim()
    ensures |SummariesOf(themes)| == |themes|
  {
    if themes != [] {
      SummariesCount(themes[1..]);
    }
  }

  // ---------------------------------------------------------------- messages that are no steps

  /** How many messages have a role that is never a step. */
  function Others(msgs: Messages): nat {
    if msgs == [] then 0 else (if msgs[0].role.System? || msgs[0].role.Exit? then 1 else 0) + Others(msgs[1..])
  }

  predicate HasUser(msgs: Messages) {
    exists m :: m in msgs && m.role.User?
  }

  predicate OnlyTurns(msgs: Messages) {
    forall m :: m in msgs ==> m.role.Assistant? || m.role.Tool?
  }

  /** Every message is a step, or has another role, or is the one first user message. */
  lemma {:induction false} StepsAndRest(msgs: Messages, seenTask: bool)
    ensures |StepMessages(msgs, seenTask)| + Others(msgs) + One(!seenTask && HasUser(msgs)) == |msgs|
  {
    if msgs != [] {
      var rest := msgs[1..];
      assert HasUser(msgs) <==> msgs[0].role.User? || HasUser(rest) by {
        Cut(msgs, 1);
      }
      StepsAndRest(rest, seenTask || msgs[0].role.User?);
    }
  }

  lemma {:induction false} OthersOnlyTurns(msgs: Messages)
    ensures Others(msgs) + One(HasUser(msgs)) == 0 <==> OnlyTurns(msgs)
  {
    if msgs != [] {
      var rest := msgs[1..];
      Cut(msgs, 1);
      assert HasUser(msgs) <==> msgs[0].role.User? || HasUser(rest);
      assert OnlyTurns(msgs) <==> (msgs[0].role.Assistant? || msgs[0].role.Tool?) && OnlyTurns(rest);
      OthersOnlyTurns(rest);
    }
  }

  /** No message is left out of the steps exactly when all are calls and replies; a user
      message always costs one, the first. */
  lemma AllAreSteps(msgs: Messages)
    ensures |StepMessages(msgs, false)| == |msgs| <==> OnlyTurns(msgs)
  {
    StepsAndRest(msgs, false);
    OthersOnlyTurns(msgs);
  }

  /** What a compaction counts, message by message: of the messages since the last one, all
      but those of other roles and the first user message; and the last theme once more
      when none is in progress. */
  lemma MessagesConserved(messages: Messages, given: seq<Theme>, keepRecent: nat)
    requires given != []
    requires var steps := StepMessages(Newer(Slice(messages, 2, |messages|)), false);
      steps != [] && Tiles(SortThemes(given), 0, |steps|)
    ensures var newer := Newer(Slice(messages, 2, |messages|));
      var themes := SortThemes(given);
      var last := themes[|themes| - 1];
      var r := CompactionOf(messages, Some(given), keepRecent);
      && r.Compacted?
      && r.blocks.compressed + r.blocks.kept
         == |newer| - Others(newer) - One(HasUser(newer))
            + (if AnyInProgress(themes) then 0 else last.end - last.start + 1)
      && (AnyInProgress(themes) ==> (r.blocks.compressed + r.blocks.kept == |newer| <==> OnlyTurns(newer)))
  {
    var newer := Newer(Slice(messages, 2, |messages|));
    CompactionShape(messages, given, keepRecent);
    StepsConserved(SortThemes(given), StepMessages(newer, false), keepRecent);
    StepsAndRest(newer, false);
    OthersOnlyTurns(newer);
  }

  lemma LoneSorted(theme: Theme)
    ensures SortThemes([theme]) == [theme]
  {
    assert [theme][1..] == [];
    assert SortThemes([theme]) == Insert(theme, SortThemes([theme][1..]));
  }

  lemma LoneTheme(theme: Theme, steps: Messages, keepRecent: nat)
    requires theme.inProgress && 0 == theme.start <= theme.end == |steps| - 1
    ensures var b := OutputBlocks([theme], steps, keepRecent);
      b.messages == RecentOf(theme, steps, keepRecent) && b.compressed + b.kept == |steps|
  {
    hide FoldNote, LastNote, ThemeBlocks, LastBlocks, RecentOf;
    assert theme in [theme] && [theme][1..] == [];
    InProgressBlocks(theme, steps, keepRecent);
    ThemeCounts(theme, steps, keepRecent);
    var b := ThemeBlocks(theme, steps, keepRecent);
    assert AllBlocks([theme][1..], steps, keepRecent) == Blocks([], 0, 0);
    assert AllBlocks([theme], steps, keepRecent) == b.Plus(Blocks([], 0, 0));
    Whole(b.messages);
  }

  /** With no theme in progress the last one is put out twice: one theme without a summary
      over a call and its reply gives both messages two times, and four are counted. */
  lemma LastThemeTwice(name: string, call: Message, reply: Message)
    ensures var theme := Theme(name, 0, 1, false, None);
      OutputBlocks([theme], [call, reply], 30) == Blocks([call, reply, call, reply], 0, 4)
  {
    var theme, steps := Theme(name, 0, 1, false, None), [call, reply];
    assert [theme][1..] == [] && theme in [theme];
    SliceWithin(steps, 0, 2);
    Whole(steps);
    assert ThemeBlocks(theme, steps, 30) == Blocks(steps, 0, 2);
    assert LastBlocks(theme, steps, 30) == Blocks(steps, 0, 2);
    assert AllBlocks([theme][1..], steps, 30) == Blocks([], 0, 0);
    assert AllBlocks([theme], steps, 30) == Blocks(steps + [], 0, 2);
    assert !AnyInProgress([theme]);
  }

  lemma ReportNotRecent(theme: Theme, report: Message, steps: Messages, keepRecent: nat)
    requires 0 <= theme.start <= theme.end < |steps| && report !in steps && !IsSummary(report)
    ensures report !in RecentOf(theme, steps, keepRecent)
  {
  }

  lemma ThreeNewer(report: Message, call: Message, reply: Message)
    requires report.role.User? && call.role.Assistant? && reply.role.Tool?
    requires !IsSummary(report) && !IsSummary(call) && !IsSummary(reply)
    ensures var body := [report, call, reply];
      Newer(body) == body && Summaries(body) == [] && StepMessages(body, false) == [call, reply]
  {
    var last: Messages := [reply] + [];
    var rest := [call] + last;
    var body := [report] + rest;
    assert body == [report, call, reply] && rest == [call, reply] && last == [reply];
    ConsNewer(reply, []);
    ConsNewer(call, last);
    ConsNewer(report, rest);
  }

  lemma ConsNewer(m: Message, rest: Messages)
    requires !IsSummary(m) && !m.role.System? && !m.role.Exit?
    ensures Newer([m] + rest) == [m] + Newer(rest) && Summaries([m] + rest) == Summaries(rest)
    ensures StepMessages([m] + rest, false)
         == if m.role.User? then StepMessages(rest, true) else [m] + StepMessages(rest, false)
    ensures StepMessages([m] + rest, true) == [m] + StepMessages(rest, true)
  {
    ConsRest(m, rest);
  }

  lemma TwoAndThree<T>(a: T, b: T, c: T, d: T, e: T)
    ensures Slice([a, b, c, d, e], 0, 2) == [a, b]
    ensures Slice([a, b, c, d, e], 2, 5) == [c, d, e]
  {
  }

  /** A user message, such as an error report, that a compaction drops: it is neither in
      the output nor counted, although one theme in progress covers all the steps. */
  lemma ReportIsLost(system: Message, task: Message, report: Message, call: Message, reply: Message,
                     name: string, keepRecent: nat)
    requires system.role.System? && task.role.User? && report.role.User? && call.role.Assistant? && reply.role.Tool?
    requires report != task && !IsSummary(report) && !IsSummary(call) && !IsSummary(reply)
    ensures var messages := [system, task, report, call, reply];
      var r := CompactionOf(messages, Some([Theme(name, 0, 1, true, None)]), keepRecent);
      && r.Compacted?
      && report !in r.messages
      && r.blocks.compressed + r.blocks.kept == 2
      && |Newer(Slice(messages, 2, |messages|))| == 3
  {
    hide FoldNote, LastNote, OutputBlocks, RecentOf, SortThemes, StepMessages, Newer, Summaries, CompactionOf;
    var messages, theme := [system, task, report, call, reply], Theme(name, 0, 1, true, None);
    TwoAndThree(system, task, report, call, reply);
    ThreeNewer(report, call, reply);
    CompactionShape(messages, [theme], keepRecent);
    LoneSorted(theme);
    LoneTheme(theme, [call, reply], keepRecent);
    ReportNotRecent(theme, report, [call, reply], keepRecent);
  }

  // ---------------------------------------------------------------- summaries over a run

  datatype Event = Append(more: Messages) | Compaction(parsed: Option<seq<Theme>>, keepRecent: int)

  predicate Sensible(e: Event) {
    e.Compaction? && e.parsed.Some? ==> e.parsed.value != []
  }

  function After(messages: Messages, e: Event): Messages
    requires Sensible(e)
  {
    match e
    case Append(more) => messages + more
    case Compaction(parsed, keepRecent) =>
      match CompactionOf(messages, parsed, keepRecent)
      case Untouched(_) => messages
      case Compacted(out, _) => out
  }

  function AfterAll(messages: Messages, events: seq<Event>): Messages
    requires forall i :: 0 <= i < |events| ==> Sensible(events[i])
    decreases |events|
  {
    if events == [] then messages else AfterAll(After(messages, events[0]), events[1..])
  }

  /** The summaries behind the two messages of the head. */
  function Written(messages: Messages): Messages {
    Summaries(Slice(messages, 2, |messages|))
  }

  lemma {:induction false} SummariesConcat(a: Messages, b: Messages)
    ensures Summaries(a + b) == Summaries(a) + Summaries(b)
  {
    if a == [] {
      Whole(b);
    } else {
      SummariesConcat(a[1..], b);
      assert (a + b)[1..] == a[1..] + b;
      Assoc(if IsSummary(a[0]) then [a[0]] else [], Summaries(a[1..]), Summaries(b));
    }
  }

  lemma {:induction false} SummariesTwice(msgs: Messages)
    ensures Summaries(Summaries(msgs)) == Summaries(msgs)
  {
    if msgs != [] {
      SummariesTwice(msgs[1..]);
      if IsSummary(msgs[0]) {
        var all := [msgs[0]] + Summaries(msgs[1..]);
        assert all[1..] == Summaries(msgs[1..]);
        assert Summaries(all) == [msgs[0]] + Summaries(all[1..]);
      } else {
        assert Summaries(msgs) == Summaries(msgs[1..]);
      }
    }
  }

  lemma BehindHead(head: Messages, a: Messages, b: Messages)
    requires |head| == 2
    ensures Slice(head + a + b, 2, |head + a + b|) == a + b
  {
  }

  lemma AppendKeepsWritten(messages: Messages, more: Messages)
    ensures Written(messages) <= Written(messages + more)
  {
    if |messages| >= 2 {
      var head, body := messages[..2], messages[2..];
      assert head + body + more == messages + more;
      BehindHead(head, body, more);
      assert Slice(messages, 2, |messages|) == body;
      SummariesConcat(body, more);
    }
  }

  lemma CompactionKeepsWritten(messages: Messages, parsed: Option<seq<Theme>>, keepRecent: int)
    requires parsed.Some? ==> parsed.value != []
    requires CompactionOf(messages, parsed, keepRecent).Compacted?
    ensures Written(messages) <= Written(CompactionOf(messages, parsed, keepRecent).messages)
  {
    var r := CompactionOf(messages, parsed, keepRecent);
    var body := Slice(messages, 2, |messages|);
    assert SplitHeadTail(messages, 2, 0).middle == body;
    BehindHead(Slice(messages, 0, 2), Summaries(body), r.blocks.messages);
    SummariesConcat(Summaries(body), r.blocks.messages);
    SummariesTwice(body);
  }

  lemma WrittenGrows(messages: Messages, e: Event)
    requires Sensible(e)
    ensures Written(messages) <= Written(After(messages, e))
  {
    match e
    case Append(more) => AppendKeepsWritten(messages, more);
    case Compaction(parsed, keepRecent) =>
      if CompactionOf(messages, parsed, keepRecent).Compacted? {
        CompactionKeepsWritten(messages, parsed, keepRecent);
      }
  }

  /** Every subtask summary ever written survives, in order, through any number of later
      messages and compactions. */
  lemma {:induction false} SummariesSurvive(messages: Messages, events: seq<Event>)
    requires forall i :: 0 <= i < |events| ==> Sensible(events[i])
    ensures Written(messages) <= Written(AfterAll(messages, events))
    decreases |events|
  {
    if events != [] {
      WrittenGrows(messages, events[0]);
      SummariesSurvive(After(messages, events[0]), events[1..]);
    }
  }
}

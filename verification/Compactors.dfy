/** The truncation, mask and model strategies as rewritings of a message history. */
module Compactors {
  import opened Optional
  import opened History
  import opened Seqs

  // ---------------------------------------------------------------- masking

  /** The options of a mask compactor. The regular expression that marks bug context,
      the line count and the formatted placeholder are parameters. */
  datatype MaskOptions = MaskOptions(
    maskOutput: bool, maskThinking: bool, thinkingPlaceholder: string,
    keepN: nat, taggedKeep: bool, longOutputChars: nat,
    hasBugContext: string -> bool, masked: string -> string)

  /** How many tool messages the recency window holds when there are `count` of them:
      `tool_idx[count - keepN:]` for a non-zero `keepN`, where a negative start counts
      from the end of the list. */
  function RecentCount(count: nat, keepN: nat): nat {
    if keepN == 0 then 0
    else if keepN <= count then keepN
    else if keepN - count <= count then keepN - count
    else count
  }

  function MaskOne(o: MaskOptions, m: Message, recent: bool): Message {
    if o.maskThinking && m.role.Assistant? && m.reasoning != "" then
      m.(reasoning := o.thinkingPlaceholder)
    else if o.maskOutput && m.role.Tool? && !recent
         && !(o.taggedKeep && o.hasBugContext(m.content)
              && !(o.longOutputChars != 0 && |m.content| > o.longOutputChars)) then
      m.(content := o.masked(m.content))
    else m
  }

  /** `msgs` masked; a tool message is recent if at most `recent` of them remain with it. */
  function Masked(o: MaskOptions, msgs: Messages, recent: nat): (out: Messages)
    ensures |out| == |msgs|
  {
    if msgs == [] then []
    else [MaskOne(o, msgs[0], ToolCount(msgs) <= recent)] + Masked(o, msgs[1..], recent)
  }

  /** Positions of the tool messages from `start` on. */
  function ToolIndices(msgs: Messages, start: nat): (idx: seq<nat>)
    requires start <= |msgs|
    ensures forall k :: 0 <= k < |idx| ==> start <= idx[k] < |msgs|
    decreases |msgs| - start
  {
    if start == |msgs| then []
    else if msgs[start].role.Tool? then [start] + ToolIndices(msgs, start + 1)
    else ToolIndices(msgs, start + 1)
  }

  lemma {:induction false} ToolIndicesCount(msgs: Messages, start: nat)
    requires start <= |msgs|
    ensures var idx := ToolIndices(msgs, start);
      && |idx| == ToolCount(msgs[start..])
      && (forall k :: 0 <= k < |idx| ==> msgs[idx[k]].role.Tool? && ToolCount(msgs[idx[k]..]) == |idx| - k)
      && (forall i :: start <= i < |msgs| && msgs[i].role.Tool? ==> i in idx)
    decreases |msgs| - start
  {
    if start < |msgs| {
      ToolCountStep(msgs, start);
      ToolIndicesCount(msgs, start + 1);
    }
  }

  lemma ToolIndicesLength(msgs: Messages)
    ensures |ToolIndices(msgs, 0)| == ToolCount(msgs)
  {
    Whole(msgs);
    ToolIndicesCount(msgs, 0);
  }

  /** The positions in the recency window. */
  method RecentTools(messages: Messages, keepN: nat) returns (recentToolIdx: set<nat>)
    ensures forall i :: 0 <= i < |messages| && messages[i].role.Tool? ==>
      (i in recentToolIdx <==> ToolCount(messages[i..]) <= RecentCount(ToolCount(messages), keepN))
  {
    var toolIdx := ToolIndices(messages, 0);
    ToolIndicesLength(messages);
    var keepFrom := if keepN != 0 then |toolIdx| - keepN else |toolIdx|;
    var from := if keepFrom >= 0 then keepFrom else if |toolIdx| + keepFrom >= 0 then |toolIdx| + keepFrom else 0;
    recentToolIdx := set i | i in toolIdx[from..];
    assert |toolIdx| - from == RecentCount(|toolIdx|, keepN);
    WindowIsRecent(messages, toolIdx, from);
  }

  lemma WindowIsRecent(msgs: Messages, toolIdx: seq<nat>, from: nat)
    requires toolIdx == ToolIndices(msgs, 0) && from <= |toolIdx|
    ensures forall i :: 0 <= i < |msgs| && msgs[i].role.Tool? ==>
      (i in toolIdx[from..] <==> ToolCount(msgs[i..]) <= |toolIdx| - from)
  {
    forall i | 0 <= i < |msgs| && msgs[i].role.Tool?
      ensures i in toolIdx[from..] <==> ToolCount(msgs[i..]) <= |toolIdx| - from
    {
      InWindow(msgs, toolIdx, from, i);
    }
  }

  /** `mask_env_messages`. */
  method MaskEnvMessages(o: MaskOptions, messages: Messages) returns (out: Messages)
    ensures out == Masked(o, messages, RecentCount(ToolCount(messages), o.keepN))
  {
    hide Masked, RecentCount, ToolCount;
    var recentToolIdx := RecentTools(messages, o.keepN);
    ghost var recent := RecentCount(ToolCount(messages), o.keepN);
    out := [];
    var i := 0;
    while i < |messages|
      invariant 0 <= i == |out| <= |messages|
      invariant forall k :: 0 <= k < i ==> out[k] == Shown(o, messages, recent, k)
    {
      var m := messages[i];
      if o.maskThinking && m.role.Assistant? && m.reasoning != "" {
        out := out + [m.(reasoning := o.thinkingPlaceholder)];
      } else if o.maskOutput && m.role.Tool? {
        if i in recentToolIdx {
          out := out + [m];
        } else if o.taggedKeep && o.hasBugContext(m.content) {
          if o.longOutputChars != 0 && |m.content| > o.longOutputChars {
            out := out + [m.(content := o.masked(m.content))];
          } else {
            out := out + [m];
          }
        } else {
          out := out + [m.(content := o.masked(m.content))];
        }
      } else {
        out := out + [m];
      }
      i := i + 1;
    }
    forall k | 0 <= k < |messages| ensures out[k] == Masked(o, messages, recent)[k] {
      MaskedAt(o, messages, recent, k);
    }
  }

  /** Message `k` as the masked history shows it. */
  function Shown(o: MaskOptions, msgs: Messages, recent: nat, k: nat): Message
    requires k < |msgs|
  {
    MaskOne(o, msgs[k], ToolCount(msgs[k..]) <= recent)
  }

  lemma {:induction false} MaskedAt(o: MaskOptions, msgs: Messages, recent: nat, k: nat)
    requires k < |msgs|
    ensures Masked(o, msgs, recent)[k] == Shown(o, msgs, recent, k)
  {
    if k == 0 {
      assert msgs[0..] == msgs;
    } else {
      assert msgs[1..][k - 1..] == msgs[k..];
      MaskedAt(o, msgs[1..], recent, k - 1);
    }
  }

  lemma ToolAt(msgs: Messages, k: nat)
    requires k < |ToolIndices(msgs, 0)|
    ensures var idx := ToolIndices(msgs, 0);
      msgs[idx[k]].role.Tool? && ToolCount(msgs[idx[k]..]) == |idx| - k
  {
    ToolIndicesCount(msgs, 0);
  }

  lemma ToolPosition(msgs: Messages, i: nat) returns (k: nat)
    requires i < |msgs| && msgs[i].role.Tool?
    ensures var idx := ToolIndices(msgs, 0);
      k < |idx| && idx[k] == i && ToolCount(msgs[i..]) == |idx| - k
  {
    ToolIndicesCount(msgs, 0);
    var idx := ToolIndices(msgs, 0);
    k :| 0 <= k < |idx| && idx[k] == i;
  }

  lemma InRest(s: seq<nat>, from: nat, k: nat)
    requires from <= k < |s|
    ensures s[k] in s[from..]
  {
    assert s[from..][k - from] == s[k];
  }

  lemma PlaceInRest(s: seq<nat>, from: nat, x: nat) returns (k: nat)
    requires from <= |s| && x in s[from..]
    ensures from <= k < |s| && s[k] == x
  {
    var j :| 0 <= j < |s| - from && s[from..][j] == x;
    k := from + j;
  }

  lemma InWindow(msgs: Messages, toolIdx: seq<nat>, from: nat, i: nat)
    requires toolIdx == ToolIndices(msgs, 0) && from <= |toolIdx| && i < |msgs|
    ensures msgs[i].role.Tool? ==> (i in toolIdx[from..] <==> ToolCount(msgs[i..]) <= |toolIdx| - from)
  {
    if msgs[i].role.Tool? {
      var k := ToolPosition(msgs, i);
      if k >= from {
        InRest(toolIdx, from, k);
      } else if i in toolIdx[from..] {
        var j := PlaceInRest(toolIdx, from, i);
        ToolAt(msgs, j);
      }
    }
  }

  /** Masking keeps every message's place, role, calls and call id; it rewrites only old
      tool outputs and non-empty reasoning, and never an output in the window. */
  lemma MaskedKeepsShape(o: MaskOptions, msgs: Messages, recent: nat, i: nat)
    requires i < |msgs|
    ensures var m, m' := msgs[i], Masked(o, msgs, recent)[i];
      && m'.role == m.role && m'.calls == m.calls && m'.callId == m.callId
      && (m'.content != m.content ==> m.role.Tool? && o.maskOutput && ToolCount(msgs[i..]) > recent)
      && (m'.reasoning != m.reasoning ==> m.role.Assistant? && o.maskThinking && m.reasoning != "")
  {
    MaskedAt(o, msgs, recent, i);
  }

  /** Message `i` is one of the last `keepN` tool messages. */
  predicate AmongLast(msgs: Messages, keepN: nat, i: nat)
    requires i < |msgs|
  {
    msgs[i].role.Tool? && ToolCount(msgs[i..]) <= keepN
  }

  /** What the documentation of the mask promises: the last `keepN` outputs are shown as
      they are. */
  predicate ShowsLast(o: MaskOptions, msgs: Messages) {
    var out := Masked(o, msgs, RecentCount(ToolCount(msgs), o.keepN));
    forall i :: 0 <= i < |msgs| && AmongLast(msgs, o.keepN, i) ==> out[i] == msgs[i]
  }

  lemma {:induction false} CountOfRest(msgs: Messages, i: nat)
    requires i <= |msgs|
    ensures ToolCount(msgs[i..]) <= ToolCount(msgs)
  {
    if i == 0 {
      Whole(msgs);
    } else {
      CountOfRest(msgs, i - 1);
      ToolCountStep(msgs, i - 1);
    }
  }

  /** The promise is kept, whatever else is masked, unless `keepN` is more than the number
      of tool messages and less than twice that number. */
  lemma WindowKept(o: MaskOptions, msgs: Messages)
    requires var count := ToolCount(msgs); !(count < o.keepN < 2 * count)
    ensures ShowsLast(o, msgs)
  {
    var recent := RecentCount(ToolCount(msgs), o.keepN);
    var out := Masked(o, msgs, recent);
    forall i | 0 <= i < |msgs| && AmongLast(msgs, o.keepN, i)
      ensures out[i] == msgs[i]
    {
      CountOfRest(msgs, i);
      MaskedAt(o, msgs, recent, i);
    }
  }

  /** The outputs that the options mask: those that are not shown outside the window. */
  predicate AllMaskable(o: MaskOptions, msgs: Messages) {
    forall m :: m in msgs && m.role.Tool? ==> MaskOne(o, m, false) != m
  }

  /** Where every output is one that the options mask, the promise is kept exactly then. */
  lemma RecencyWindow(o: MaskOptions, msgs: Messages)
    requires AllMaskable(o, msgs)
    ensures var count := ToolCount(msgs);
      ShowsLast(o, msgs) <==> !(count < o.keepN < 2 * count)
  {
    var count := ToolCount(msgs);
    var recent := RecentCount(count, o.keepN);
    if count < o.keepN < 2 * count {
      ToolIndicesLength(msgs);
      var first := ToolIndices(msgs, 0)[0];
      FirstTool(msgs);
      MaskedAt(o, msgs, recent, first);
      assert AmongLast(msgs, o.keepN, first);
    } else {
      WindowKept(o, msgs);
    }
  }

  lemma FirstTool(msgs: Messages)
    requires ToolIndices(msgs, 0) != []
    ensures var first := ToolIndices(msgs, 0)[0];
      msgs[first].role.Tool? && ToolCount(msgs[first..]) == ToolCount(msgs)
  {
    ToolAt(msgs, 0);
    ToolIndicesLength(msgs);
  }

  /** Which outputs come out as they were, of those that the options mask: the last `keepN`,
      and in that one case only the last `keepN - count`. */
  lemma WindowExactly(o: MaskOptions, msgs: Messages, i: nat)
    requires AllMaskable(o, msgs) && i < |msgs| && msgs[i].role.Tool?
    ensures var count := ToolCount(msgs);
      Masked(o, msgs, RecentCount(count, o.keepN))[i] == msgs[i]
      <==> ToolCount(msgs[i..]) <= if count < o.keepN < 2 * count then o.keepN - count else o.keepN
  {
    MaskedAt(o, msgs, RecentCount(ToolCount(msgs), o.keepN), i);
    CountOfRest(msgs, i);
    ToolCountStep(msgs, i);
    assert MaskOne(o, msgs[i], true) == msgs[i];
  }

  lemma {:induction false} OnlyTools(msgs: Messages)
    requires forall m :: m in msgs ==> m.role.Tool?
    ensures ToolCount(msgs) == |msgs|
  {
    if msgs != [] {
      OnlyTools(msgs[1..]);
    }
  }

  /** Ten outputs to keep and nine there are: all but the last are masked. */
  lemma NineOutputs(o: MaskOptions, msgs: Messages, i: nat)
    requires o.keepN == 10 && |msgs| == 9 && AllMaskable(o, msgs)
    requires forall m :: m in msgs ==> m.role.Tool?
    requires i < 9
    ensures Masked(o, msgs, RecentCount(ToolCount(msgs), o.keepN))[i] == msgs[i] <==> i == 8
  {
    OnlyTools(msgs);
    OnlyTools(msgs[i..]);
    MaskedAt(o, msgs, RecentCount(9, 10), i);
  }

  /** An output that is kept although it is old: it has bug context, such outputs are kept,
      and it is not too long. */
  predicate KeptOutput(o: MaskOptions, content: string) {
    o.taggedKeep && o.hasBugContext(content) && (o.longOutputChars == 0 || |content| <= o.longOutputChars)
  }

  /** What becomes of each message: an output comes out masked exactly when outputs are
      masked, it is older than the window and not one to be kept; a reasoning is replaced
      exactly when thinking is masked and there is one; all else stays. */
  lemma MaskedExactly(o: MaskOptions, msgs: Messages, i: nat)
    requires i < |msgs|
    ensures var m := msgs[i];
      var aged := ToolCount(msgs[i..]) > RecentCount(ToolCount(msgs), o.keepN);
      var m' := Masked(o, msgs, RecentCount(ToolCount(msgs), o.keepN))[i];
      && (m.role.Tool? ==>
           if o.maskOutput && aged && !KeptOutput(o, m.content) then m' == m.(content := o.masked(m.content))
           else m' == m)
      && (m.role.Assistant? ==>
           m' == m.(reasoning := if o.maskThinking && m.reasoning != "" then o.thinkingPlaceholder else m.reasoning))
      && (!m.role.Tool? && !m.role.Assistant? ==> m' == m)
  {
    MaskedAt(o, msgs, RecentCount(ToolCount(msgs), o.keepN), i);
  }

  // ---------------------------------------------------------------- the strategies

  datatype Strategy = Truncation | Mask(options: MaskOptions) | Model

  datatype Kind = DroppedMiddle | MaskedMiddle | Summary | SummaryFailed

  datatype Compaction = Compaction(messages: Messages, kind: Kind, summary: Option<string>)

  const SUMMARY_ID := "summary_0"

  /** A summary shown as a tool call of the agent and its result. */
  function SummaryAsToolTurn(summary: string): Messages {
    [Message(Assistant, "", "", [SUMMARY_ID], ""), Message(Tool, summary, "", [], SUMMARY_ID)]
  }

  /** `compact`. For the model strategy `generated` is what the summarizer produced, or
      None if it raised. */
  function Compact(strategy: Strategy, generated: Option<string>, messages: Messages,
                   keepFirst: nat, keepLastTurns: int): Compaction
  {
    var s := SplitHeadTail(messages, keepFirst, keepLastTurns);
    match strategy
    case Truncation => Compaction(s.head + s.tail, DroppedMiddle, None)
    case Mask(o) =>
      Compaction(s.head + Masked(o, s.middle, RecentCount(ToolCount(s.middle), o.keepN)) + s.tail, MaskedMiddle, None)
    case Model =>
      match generated
      case None => Compaction(s.head + s.tail, SummaryFailed, None)
      case Some(z) => Compaction(s.head + SummaryAsToolTurn(z) + s.tail, Summary, generated)
  }

  /** What each strategy shows: the head and the tail verbatim, and between them nothing, the
      middle masked message by message, or the summary. */
  lemma EndsStayVerbatim(strategy: Strategy, generated: Option<string>, h: Messages, k: nat, n: int)
    ensures var s := SplitHeadTail(h, k, n); var out := Compact(strategy, generated, h, k, n).messages;
      && |s.head| + |s.tail| <= |out| && |s.head| + |s.tail| <= |h|
      && out[..|s.head|] == h[..|s.head|]
      && out[|out| - |s.tail|..] == h[|h| - |s.tail|..]
      && (strategy.Truncation? || (strategy.Model? && generated.None?) ==> |out| == |s.head| + |s.tail|)
      && (strategy.Mask? ==> |out| == |h|)
      && (strategy.Model? && generated.Some? ==> |out| == |s.head| + 2 + |s.tail|)
  {
    var s := SplitHeadTail(h, k, n);
    var out := Compact(strategy, generated, h, k, n).messages;
    var middle := out[|s.head|..|out| - |s.tail|];
    SplitIsPartition(h, k, n);
    ThreeEnds(s.head, s.middle, s.tail);
    ThreeEnds(s.head, middle, s.tail);
    assert out == s.head + middle + s.tail;
  }

  /** Each message of the middle is masked by the options and its place among the outputs of
      the middle alone. */
  lemma MiddleIsMasked(o: MaskOptions, generated: Option<string>, h: Messages, k: nat, n: int, i: nat)
    requires i < |SplitHeadTail(h, k, n).middle|
    ensures var s := SplitHeadTail(h, k, n); var out := Compact(Mask(o), generated, h, k, n).messages;
      var window := RecentCount(ToolCount(s.middle), o.keepN);
      && |s.head| + i < |out| == |h| && s.middle[i] == h[|s.head| + i]
      && out[|s.head| + i] == MaskOne(o, h[|s.head| + i], ToolCount(s.middle[i..]) <= window)
  {
    var s := SplitHeadTail(h, k, n);
    SplitIsPartition(h, k, n);
    MaskedAt(o, s.middle, RecentCount(ToolCount(s.middle), o.keepN), i);
  }

  lemma ThreeEnds<T>(a: seq<T>, b: seq<T>, c: seq<T>)
    ensures var s := a + b + c; s[..|a|] == a && s[|s| - |c|..] == c
  {
  }

  /** A model compaction shows the summary: behind the head stand a call without content and
      the tool message that answers it, whose content is the summary. */
  lemma SummaryIsShown(z: string, h: Messages, k: nat, n: int)
    ensures var s := SplitHeadTail(h, k, n); var r := Compact(Model, Some(z), h, k, n);
      && |r.messages| == |s.head| + 2 + |s.tail|
      && r.messages[..|s.head|] == s.head
      && r.messages[|s.head| + 2..] == s.tail
      && r.messages[|s.head|] == Message(Assistant, "", "", ["summary_0"], "")
      && r.messages[|s.head| + 1] == Message(Tool, z, "", [], "summary_0")
      && r.kind == Summary && r.summary == Some(z)
  {
    var s := SplitHeadTail(h, k, n);
    var turn := SummaryAsToolTurn(z);
    Parts(s.head + turn, s.tail);
    Assoc(s.head, turn, s.tail);
    Parts(s.head, turn + s.tail);
  }

  /** What the record of a compaction says: which strategy it was, and whether the summary
      failed; a summary is recorded exactly when there is one. */
  lemma KindsAre(strategy: Strategy, generated: Option<string>, h: Messages, k: nat, n: int)
    ensures var r := Compact(strategy, generated, h, k, n);
      && (strategy.Truncation? <==> r.kind == DroppedMiddle)
      && (strategy.Mask? <==> r.kind == MaskedMiddle)
      && (strategy.Model? && generated.Some? <==> r.kind == Summary)
      && (strategy.Model? && generated.None? <==> r.kind == SummaryFailed)
      && r.summary == if strategy.Model? then generated else None
  {
  }

  // ---------------------------------------------------------------- whole turns survive

  /** The parts of a history of whole turns, cut after an even number of messages. */
  lemma SplitOfWholeTurns(h: Messages, keepFirst: nat, n: int)
    requires WholeTurns(h)
    requires keepFirst >= 2 && keepFirst % 2 == 0
    ensures var s := SplitHeadTail(h, keepFirst, n);
      WholeTurns(s.head) && Turns(s.middle) && Turns(s.tail)
  {
    if keepFirst < |h| {
      HeadOfWholeTurns(h, keepFirst);
      TailOfTurns(h, keepFirst, n);
    } else {
      AllHead(h, keepFirst, n);
    }
  }

  lemma SplitCounts(h: Messages, keepFirst: nat, n: nat)
    requires WholeTurns(h)
    requires 2 <= keepFirst <= |h| && keepFirst % 2 == 0
    requires ToolCount(h) >= (keepFirst - 2) / 2 + n
    ensures var s := SplitHeadTail(h, keepFirst, n);
      ToolCount(s.head) == (keepFirst - 2) / 2 && ToolCount(s.tail) == n
  {
    HeadOfWholeTurns(h, keepFirst);
    Cut(h, keepFirst);
    ToolCountConcat(h[..keepFirst], h[keepFirst..]);
    if keepFirst < |h| {
      TailOfTurns(h, keepFirst, n);
    } else {
      AllHead(h, keepFirst, n);
      assert h[..keepFirst] == h;
    }
  }

  lemma AllHead(h: Messages, keepFirst: nat, n: int)
    requires WholeTurns(h) && keepFirst >= |h|
    ensures SplitHeadTail(h, keepFirst, n) == Split(h, [], [])
    ensures |h| == 2 + 2 * ToolCount(h)
  {
    SplitAllHead(h, keepFirst, n);
    WholeTurnsCount(h);
  }

  lemma HeadOfWholeTurns(h: Messages, k: nat)
    requires WholeTurns(h) && 2 <= k <= |h| && k % 2 == 0
    ensures WholeTurns(h[..k]) && Turns(h[k..])
    ensures ToolCount(h[..k]) == (k - 2) / 2
  {
    TurnsSplit(h[2..], k - 2);
    RestOfRest(h, 2, k - 2);
    RestOfPrefix(h, 2, k);
    WholeTurnsCount(h[..k]);
  }

  lemma TailOfTurns(h: Messages, k: nat, n: int)
    requires k < |h| && Turns(h[k..])
    ensures var s := SplitHeadTail(h, k, n); var count := ToolCount(h[k..]);
      && s.head == h[..k]
      && Turns(s.middle) && Turns(s.tail)
      && ToolCount(s.tail) == if n <= 0 then 0 else if count <= n then count else n
  {
    SplitAfterHead(h, k, n);
    TurnsBeforeTail(h[k..], n);
  }

  lemma TurnsBeforeTail(body: Messages, n: int)
    requires Turns(body)
    ensures var tail := LastTurns(body, n); var count := ToolCount(body);
      && Turns(tail)
      && ToolCount(tail) == (if n <= 0 then 0 else if count <= n then count else n)
      && |tail| <= |body| && Turns(body[..|body| - |tail|])
  {
    var tail := LastTurns(body, n);
    LastOfTurns(body, n);
    LastTurnsIsSuffix(body, n);
    TurnsCount(tail);
    TurnsCount(body);
    TurnsSplit(body, |body| - |tail|);
  }

  lemma {:induction false} MaskedTurns(o: MaskOptions, msgs: Messages, recent: nat)
    requires Turns(msgs)
    ensures Turns(Masked(o, msgs, recent))
    ensures ToolCount(Masked(o, msgs, recent)) == ToolCount(msgs)
  {
    if msgs != [] {
      var out := Masked(o, msgs, recent);
      assert msgs[1..][1..] == msgs[2..];
      assert out[1..] == Masked(o, msgs[1..], recent);
      assert out[1..][1..] == Masked(o, msgs[2..], recent);
      assert out[2..] == out[1..][1..];
      MaskedTurns(o, msgs[2..], recent);
    }
  }

  lemma WholeTurnsConcat(h: Messages, more: Messages)
    requires WholeTurns(h) && Turns(more)
    ensures WholeTurns(h + more)
  {
    assert (h + more)[2..] == h[2..] + more;
    TurnsConcat(h[2..], more);
  }

  lemma SummaryIsTurn(z: string)
    ensures Turns(SummaryAsToolTurn(z)) && ToolCount(SummaryAsToolTurn(z)) == 1
  {
    assert SummaryAsToolTurn(z)[2..] == [];
    TurnsCount(SummaryAsToolTurn(z));
  }

  /** Every strategy takes whole turns to whole turns and keeps the head. */
  lemma CompactKeepsTurns(strategy: Strategy, generated: Option<string>, h: Messages, keepFirst: nat, n: int)
    requires WholeTurns(h)
    requires keepFirst >= 2 && keepFirst % 2 == 0
    ensures var out := Compact(strategy, generated, h, keepFirst, n).messages;
      && WholeTurns(out)
      && Slice(h, 0, keepFirst) <= out
  {
    var s := SplitHeadTail(h, keepFirst, n);
    SplitOfWholeTurns(h, keepFirst, n);
    WholeTurnsConcat(s.head, s.tail);
    match strategy
    case Truncation =>
    case Mask(o) =>
      var masked := Masked(o, s.middle, RecentCount(ToolCount(s.middle), o.keepN));
      MaskedTurns(o, s.middle, RecentCount(ToolCount(s.middle), o.keepN));
      WholeTurnsConcat(s.head, masked);
      WholeTurnsConcat(s.head + masked, s.tail);
    case Model =>
      if generated.Some? {
        SummaryIsTurn(generated.value);
        WholeTurnsConcat(s.head, SummaryAsToolTurn(generated.value));
        WholeTurnsConcat(s.head + SummaryAsToolTurn(generated.value), s.tail);
      }
  }

  /** How many turns are left after truncation and after model compaction of a history
      with at least as many turns as head and tail hold. */
  lemma CompactedTurns(strategy: Strategy, generated: Option<string>, h: Messages, keepFirst: nat, n: nat)
    requires WholeTurns(h) && !strategy.Mask?
    requires keepFirst >= 2 && keepFirst % 2 == 0 && keepFirst <= |h|
    requires ToolCount(h) >= (keepFirst - 2) / 2 + n
    ensures ToolCount(Compact(strategy, generated, h, keepFirst, n).messages)
         == (keepFirst - 2) / 2 + n + (if strategy.Model? && generated.Some? then 1 else 0)
  {
    var s := SplitHeadTail(h, keepFirst, n);
    SplitCounts(h, keepFirst, n);
    ToolCountConcat(s.head, s.tail);
    if strategy.Model? && generated.Some? {
      SummaryIsTurn(generated.value);
      ToolCountConcat(s.head, SummaryAsToolTurn(generated.value));
      ToolCountConcat(s.head + SummaryAsToolTurn(generated.value), s.tail);
    }
  }

  /** Masking never changes the number of turns. */
  lemma MaskKeepsCount(o: MaskOptions, generated: Option<string>, h: Messages, keepFirst: nat, n: int)
    requires WholeTurns(h)
    requires keepFirst >= 2 && keepFirst % 2 == 0
    ensures ToolCount(Compact(Mask(o), generated, h, keepFirst, n).messages) == ToolCount(h)
  {
    var s := SplitHeadTail(h, keepFirst, n);
    SplitOfWholeTurns(h, keepFirst, n);
    SplitIsPartition(h, keepFirst, n);
    var recent := RecentCount(ToolCount(s.middle), o.keepN);
    MaskedTurns(o, s.middle, recent);
    ToolCountConcat(s.head, s.middle);
    ToolCountConcat(s.head + s.middle, s.tail);
    ToolCountConcat(s.head, Masked(o, s.middle, recent));
    ToolCountConcat(s.head + Masked(o, s.middle, recent), s.tail);
  }

  // ---------------------------------------------------------------- heads of any length

  /** Truncating a history of whole turns leaves one that is accepted exactly when the
      head does not end inside a turn, or nothing is dropped. */
  lemma TruncationAccepted(h: Messages, keepFirst: nat, n: int)
    requires WholeTurns(h)
    ensures var s := SplitHeadTail(h, keepFirst, n);
      Accepted(Compact(Truncation, None, h, keepFirst, n).messages)
      <==> keepFirst % 2 == 0 || keepFirst == 1 || s.middle == []
  {
    var s := SplitHeadTail(h, keepFirst, n);
    SplitIsPartition(h, keepFirst, n);
    if s.middle == [] {
      assert s.head + s.tail == h;
      WholeTurnsAccepted(h);
    } else if keepFirst < 2 {
      ShortHead(h, keepFirst, n);
    } else if keepFirst % 2 == 0 {
      CompactKeepsTurns(Truncation, None, h, keepFirst, n);
      WholeTurnsAccepted(s.head + s.tail);
    } else {
      CutTurnRejected(h, keepFirst, n);
    }
  }

  lemma ShortHead(h: Messages, keepFirst: nat, n: int)
    requires WholeTurns(h) && keepFirst < 2
    requires SplitHeadTail(h, keepFirst, n).middle != []
    ensures var s := SplitHeadTail(h, keepFirst, n); Accepted(s.head + s.tail)
  {
    SplitAfterHead(h, keepFirst, n);
    ShortHeadTail(h, keepFirst, n);
    var tail := LastTurns(h[keepFirst..], n);
    TurnsAccepted(tail);
    NoCallsInHead(h[..keepFirst], tail);
  }

  lemma ShortHeadTail(h: Messages, keepFirst: nat, n: int)
    requires WholeTurns(h) && keepFirst < 2
    requires SplitHeadTail(h, keepFirst, n).middle != []
    ensures Turns(LastTurns(h[keepFirst..], n))
  {
    var turns := h[2..];
    LastOfTurns(turns, n);
    RestOfRest(h, 1, 1);
    Whole(h);
    if n > 0 {
      MiddleIsLeft(h, keepFirst, n);
      assert LastTurns(h[1..], n) == LastTurns(turns, n);
      assert keepFirst == 0 ==> LastTurns(h, n) == LastTurns(h[1..], n);
    }
  }

  /** Something is dropped only if there are more turns than asked for. */
  lemma MiddleIsLeft(h: Messages, k: nat, n: int)
    requires k < |h| && n > 0 && SplitHeadTail(h, k, n).middle != []
    ensures ToolCount(h[k..]) > n
  {
    SplitAfterHead(h, k, n);
  }

  lemma NoCallsInHead(head: Messages, tail: Messages)
    requires forall m :: m in head ==> !m.role.Assistant?
    requires Accepted(tail)
    ensures Accepted(head + tail)
  {
    var out := head + tail;
    forall i | 0 <= i < |out| ensures Missing(out, i) == {} {
      if i >= |head| {
        var k := i - |head|;
        assert Missing(tail, k) == {};
        assert out[i + 1..] == tail[k + 1..];
      } else {
        assert out[i] in head;
      }
    }
  }

  /** After an odd head the first message is a reply; unless the tail is everything, it
      begins with a call or is empty. */
  lemma TailAfterOddHead(h: Messages, keepFirst: nat, n: int)
    requires WholeTurns(h) && 3 <= keepFirst < |h| && keepFirst % 2 == 1
    requires SplitHeadTail(h, keepFirst, n).middle != []
    ensures IsTurn(h[keepFirst - 1], h[keepFirst])
    ensures var tail := SplitHeadTail(h, keepFirst, n).tail; tail == [] || tail[0].role.Assistant?
  {
    var tail := SplitHeadTail(h, keepFirst, n).tail;
    var body := h[keepFirst..];
    HeadOfWholeTurns(h, keepFirst - 1);
    var cut := h[keepFirst - 1..];
    assert IsTurn(cut[0], cut[1]);
    assert body[1..] == cut[2..];
    assert Slice(h, keepFirst, |h|) == body;
    LastOfTurns(cut[2..], n);
    if n > 0 {
      assert ToolCount(body) > n;
      assert tail == LastTurns(cut[2..], n);
    }
  }

  lemma CutTurnRejected(h: Messages, keepFirst: nat, n: int)
    requires WholeTurns(h) && keepFirst >= 3 && keepFirst % 2 == 1
    requires SplitHeadTail(h, keepFirst, n).middle != []
    ensures var s := SplitHeadTail(h, keepFirst, n); !Accepted(s.head + s.tail)
  {
    var s := SplitHeadTail(h, keepFirst, n);
    TailAfterOddHead(h, keepFirst, n);
    var out := s.head + s.tail;
    var last := h[keepFirst - 1];
    assert out[keepFirst - 1] == last;
    assert out[keepFirst..] == s.tail;
    assert Replies(s.tail) == {};
    assert last.calls[0] in Ids(last.calls);
    assert last.calls[0] in Missing(out, keepFirst - 1);
  }

  // ---------------------------------------------------------------- any accepted history

  /** Replies at the end of a head are not fewer before any other continuation, unless
      what came there was a further reply. */
  lemma {:induction false} HeadReplies(a: Messages, b: Messages, c: Messages)
    requires b != [] ==> !b[0].role.Tool?
    ensures Replies(a + b) <= Replies(a + c)
  {
    if a == [] {
      Whole(b);
      Whole(c);
    } else if a[0].role.Tool? {
      assert (a + b)[1..] == a[1..] + b;
      assert (a + c)[1..] == a[1..] + c;
      HeadReplies(a[1..], b, c);
    }
  }

  /** A head that ends in front of no reply can be continued with any accepted messages. */
  lemma CleanCut(h: Messages, k: nat, more: Messages)
    requires Accepted(h) && Accepted(more) && k <= |h|
    requires k < |h| ==> !h[k].role.Tool?
    ensures Accepted(h[..k] + more)
  {
    var out := h[..k] + more;
    forall i | 0 <= i < |out|
      ensures Missing(out, i) == {}
    {
      if i < k {
        assert Missing(h, i) == {};
        HeadReplies(h[i + 1..k], h[k..], more);
        assert h[i + 1..] == h[i + 1..k] + h[k..];
        assert out[i + 1..] == h[i + 1..k] + more;
      } else {
        assert Missing(more, i - k) == {};
        assert out[i + 1..] == more[i - k + 1..];
      }
    }
  }

  lemma RestAccepted(h: Messages, p: nat)
    requires Accepted(h) && p <= |h|
    ensures Accepted(h[p..])
  {
    forall i | 0 <= i < |h[p..]|
      ensures Missing(h[p..], i) == {}
    {
      assert Missing(h, p + i) == {};
      RestOfRest(h, p, i + 1);
    }
  }

  lemma TailAccepted(h: Messages, k: nat, n: int)
    requires Accepted(h)
    ensures Accepted(SplitHeadTail(h, k, n).tail)
  {
    if k < |h| {
      var body := h[k..];
      SplitAfterHead(h, k, n);
      LastTurnsIsSuffix(body, n);
      RestAccepted(h, k);
      RestAccepted(body, |body| - |LastTurns(body, n)|);
    } else {
      SplitAllHead(h, k, n);
    }
  }

  lemma SummaryBeforeAccepted(z: string, tail: Messages)
    requires Accepted(tail)
    ensures Accepted(SummaryAsToolTurn(z) + tail)
  {
    SummaryIsTurn(z);
    TurnsAccepted(SummaryAsToolTurn(z));
    Whole(SummaryAsToolTurn(z));
    CleanCut(SummaryAsToolTurn(z), 2, tail);
  }

  lemma JoinAccepted(a: Messages, b: Messages)
    requires Accepted(a) && Accepted(b)
    ensures Accepted(a + b)
  {
    Whole(a);
    CleanCut(a, |a|, b);
  }

  /** The head of an accepted history is accepted if no reply comes right behind it. */
  lemma HeadAccepted(head: Messages, more: Messages)
    requires Accepted(head + more)
    requires more != [] ==> !more[0].role.Tool?
    ensures Accepted(head)
  {
    var h := head + more;
    forall i | 0 <= i < |head|
      ensures Missing(head, i) == {}
    {
      assert Missing(h, i) == {};
      HeadReplies(head[i + 1..], more, []);
      assert h[i + 1..] == head[i + 1..] + more;
      Whole(head[i + 1..]);
    }
  }

  /** An accepted head is enough for truncation and model compaction. */
  lemma HeadSuffices(strategy: Strategy, generated: Option<string>, h: Messages, k: nat, n: int)
    requires Accepted(h) && Accepted(Slice(h, 0, k)) && !strategy.Mask?
    ensures Accepted(Compact(strategy, generated, h, k, n).messages)
  {
    var s := SplitHeadTail(h, k, n);
    TailAccepted(h, k, n);
    JoinAccepted(s.head, s.tail);
    if strategy.Model? && generated.Some? {
      SummaryBeforeAccepted(generated.value, s.tail);
      JoinAccepted(s.head, SummaryAsToolTurn(generated.value) + s.tail);
      Assoc(s.head, SummaryAsToolTurn(generated.value), s.tail);
    }
  }

  /** A model compaction with a summary leaves an accepted history accepted exactly when
      the head by itself is accepted. */
  lemma ModelAccepted(z: string, h: Messages, k: nat, n: int)
    requires Accepted(h)
    ensures Accepted(Compact(Model, Some(z), h, k, n).messages) <==> Accepted(Slice(h, 0, k))
  {
    var s := SplitHeadTail(h, k, n);
    Assoc(s.head, SummaryAsToolTurn(z), s.tail);
    if Accepted(s.head) {
      HeadSuffices(Model, Some(z), h, k, n);
    } else if Accepted(s.head + (SummaryAsToolTurn(z) + s.tail)) {
      HeadAccepted(s.head, SummaryAsToolTurn(z) + s.tail);
    }
  }

  /** The replies that `msgs` begins with. */
  function Lead(msgs: Messages): (lead: Messages)
    ensures lead <= msgs
    ensures |lead| < |msgs| ==> !msgs[|lead|].role.Tool?
  {
    if msgs == [] || !msgs[0].role.Tool? then [] else [msgs[0]] + Lead(msgs[1..])
  }

  /** Truncation, also that of a failed summary, leaves an accepted history accepted exactly
      when the head together with the replies that now follow it is accepted. */
  lemma TruncationExactly(strategy: Strategy, generated: Option<string>, h: Messages, k: nat, n: int)
    requires Accepted(h)
    requires strategy.Truncation? || (strategy.Model? && generated.None?)
    ensures var s := SplitHeadTail(h, k, n);
      Accepted(Compact(strategy, generated, h, k, n).messages) <==> Accepted(s.head + Lead(s.tail))
  {
    var s := SplitHeadTail(h, k, n);
    var lead := Lead(s.tail);
    var rest := s.tail[|lead|..];
    Cut(s.tail, |lead|);
    assert lead == s.tail[..|lead|];
    Assoc(s.head, lead, rest);
    if Accepted(s.head + lead) {
      TailAccepted(h, k, n);
      RestAccepted(s.tail, |lead|);
      JoinAccepted(s.head + lead, rest);
    } else if Accepted((s.head + lead) + rest) {
      HeadAccepted(s.head + lead, rest);
    }
  }

  /** Truncation and model compaction leave any accepted history accepted, parallel calls
      included, if the message behind the head is not a reply. */
  lemma CleanCutAccepted(strategy: Strategy, generated: Option<string>, h: Messages, k: nat, n: int)
    requires Accepted(h) && !strategy.Mask?
    requires k < |h| ==> !h[k].role.Tool?
    ensures Accepted(Compact(strategy, generated, h, k, n).messages)
  {
    var cut := if k < |h| then k else |h|;
    assert Slice(h, 0, k) == h[..cut];
    Cut(h, cut);
    HeadAccepted(h[..cut], h[cut..]);
    HeadSuffices(strategy, generated, h, k, n);
  }

  lemma {:induction false} SameReplies(a: Messages, b: Messages)
    requires |a| == |b|
    requires forall i :: 0 <= i < |a| ==> a[i].role == b[i].role && a[i].callId == b[i].callId
    ensures Replies(a) == Replies(b)
  {
    if a != [] {
      SameReplies(a[1..], b[1..]);
    }
  }

  lemma SameShapeAccepted(a: Messages, b: Messages)
    requires |a| == |b| && Accepted(a)
    requires forall i :: 0 <= i < |a| ==>
      a[i].role == b[i].role && a[i].callId == b[i].callId && a[i].calls == b[i].calls
    ensures Accepted(b)
  {
    forall i | 0 <= i < |b|
      ensures Missing(b, i) == {}
    {
      assert Missing(a, i) == {};
      SameReplies(a[i + 1..], b[i + 1..]);
    }
  }

  /** The mask strategy leaves any accepted history accepted, wherever the head ends. */
  lemma MaskAccepted(o: MaskOptions, generated: Option<string>, h: Messages, k: nat, n: int)
    requires Accepted(h)
    ensures Accepted(Compact(Mask(o), generated, h, k, n).messages)
  {
    var s := SplitHeadTail(h, k, n);
    var recent := RecentCount(ToolCount(s.middle), o.keepN);
    var masked := Masked(o, s.middle, recent);
    SplitIsPartition(h, k, n);
    forall i | 0 <= i < |masked|
      ensures masked[i].role == s.middle[i].role
      ensures masked[i].callId == s.middle[i].callId && masked[i].calls == s.middle[i].calls
    {
      MaskedKeepsShape(o, s.middle, recent, i);
    }
    SameShapeAccepted(h, s.head + masked + s.tail);
  }

  // ---------------------------------------------------------------- exactly when

  /** The call that the tool message at `i` answers is at `a`, with only replies between. */
  predicate AnswersCallAt(h: Messages, a: nat, i: nat)
    requires i < |h|
  {
    && a < i
    && h[a].role.Assistant?
    && h[i].callId in h[a].calls
    && forall j :: a < j < i ==> h[j].role.Tool?
  }

  /** Each tool message answers a call of the turn it is in, and no call id is answered
      twice. */
  ghost predicate AnsweredOnce(h: Messages) {
    && (forall i :: 0 <= i < |h| && h[i].role.Tool? ==> exists a: nat :: AnswersCallAt(h, a, i))
    && (forall i, j :: 0 <= i < j < |h| && h[i].role.Tool? && h[j].role.Tool? ==> h[i].callId != h[j].callId)
  }

  lemma {:induction false} ReplyIsThere(msgs: Messages, id: string) returns (k: nat)
    requires id in Replies(msgs)
    ensures k < |msgs| && msgs[k].role.Tool? && msgs[k].callId == id
  {
    if msgs[0].callId == id {
      k := 0;
    } else {
      k := ReplyIsThere(msgs[1..], id);
      k := k + 1;
    }
  }

  /** A head that ends in front of a reply: the call of that reply stays unanswered. */
  lemma CutReplyMissing(h: Messages, k: nat, n: int)
    requires AnsweredOnce(h) && k < |h| && h[k].role.Tool?
    requires SplitHeadTail(h, k, n).middle != []
    ensures var s := SplitHeadTail(h, k, n); !Accepted(s.head + s.tail)
  {
    var s := SplitHeadTail(h, k, n);
    var out, id := s.head + s.tail, h[k].callId;
    SplitIsPartition(h, k, n);
    var a: nat :| AnswersCallAt(h, a, k);
    assert out[a] == h[a];
    if id in Replies(out[a + 1..]) {
      var j := ReplyIsThere(out[a + 1..], id);
      OtherPlace(h, s, k, a + 1 + j);
    }
    assert id in Missing(out, a);
  }

  /** A message of head or tail is one of the history, not the first of the middle. */
  lemma OtherPlace(h: Messages, s: Split, k: nat, j: nat)
    requires h == s.head + s.middle + s.tail && |s.head| == k && s.middle != []
    requires j < |s.head + s.tail|
    ensures exists i :: 0 <= i < |h| && i != k && h[i] == (s.head + s.tail)[j]
  {
    var i := if j < k then j else j + |s.middle|;
    assert h[i] == (s.head + s.tail)[j];
  }

  /** For histories that answer each call once, in its own turn, truncation keeps the
      history accepted exactly when no reply comes right behind the head, or nothing is
      dropped. */
  lemma AnsweredOnceTruncated(h: Messages, k: nat, n: int)
    requires Accepted(h) && AnsweredOnce(h)
    ensures Accepted(Compact(Truncation, None, h, k, n).messages)
      <==> k >= |h| || !h[k].role.Tool? || SplitHeadTail(h, k, n).middle == []
  {
    var s := SplitHeadTail(h, k, n);
    if k >= |h| || !h[k].role.Tool? {
      CleanCutAccepted(Truncation, None, h, k, n);
    } else if s.middle == [] {
      SplitIsPartition(h, k, n);
      assert s.head + s.tail == h;
    } else {
      CutReplyMissing(h, k, n);
    }
  }
}

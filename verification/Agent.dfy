/** The agent that compacts its own context: trigger, compaction, and whole runs. */
module Agent {
  import opened Optional
  import opened History
  import opened Compactors
  import opened Seqs

  /** `tokensOf` stands for the tokenizer, or the estimate made without one. */
  datatype Settings = Settings(
    compactor: Option<Strategy>, compressAtTokens: int, compressAtTurns: int,
    keepFirst: nat, keepLastTurns: int, tokensOf: Messages -> nat)

  /** What the agent carries from one query to the next. */
  datatype Context = Context(messages: Messages, lastPromptTokens: Option<int>)

  predicate OverBudget(c: Settings, s: Context) {
    if c.compressAtTurns > 0 then ToolCount(s.messages) >= c.compressAtTurns
    else
      var tokens := if s.lastPromptTokens.Some? then s.lastPromptTokens.value else c.tokensOf(s.messages);
      tokens >= c.compressAtTokens
  }

  predicate ShouldCompact(c: Settings, s: Context) {
    && c.compactor.Some?
    && |s.messages| > c.keepFirst + 2
    && OverBudget(c, s)
  }

  predicate Reduces(c: Settings, before: Messages, after: Messages) {
    |after| < |before| || c.tokensOf(after) < c.tokensOf(before)
  }

  function Candidate(c: Settings, s: Context, generated: Option<string>): Compaction
    requires c.compactor.Some?
  {
    Compact(c.compactor.value, generated, s.messages, c.keepFirst, c.keepLastTurns)
  }

  predicate Fires(c: Settings, s: Context, generated: Option<string>) {
    ShouldCompact(c, s) && Reduces(c, s.messages, Candidate(c, s, generated).messages)
  }

  /** The history that the model is queried with. */
  function Compressed(c: Settings, s: Context, generated: Option<string>): Messages {
    if Fires(c, s, generated) then Candidate(c, s, generated).messages else s.messages
  }

  /** One round of the agent: what the summarizer would say, the model's reply with the
      prompt tokens the server reports, and the observations of the reply's commands. */
  datatype Round = Round(
    generated: Option<string>, reply: Message, promptTokens: Option<int>, observations: Messages)

  function AfterQuery(c: Settings, s: Context, r: Round): Context {
    Context(Compressed(c, s, r.generated) + [r.reply],
            if r.promptTokens.Some? then r.promptTokens else s.lastPromptTokens)
  }

  function AfterRound(c: Settings, s: Context, r: Round): Context {
    var queried := AfterQuery(c, s, r);
    queried.(messages := queried.messages + r.observations)
  }

  /** One record per compaction that took place. */
  datatype Record = Record(index: nat, kind: Kind, before: Messages, after: Messages, summary: Option<string>)

  class SummarizingAgent {
    const settings: Settings
    var messages: Messages
    var lastPromptTokens: Option<int>
    var compressions: seq<Record>
    var nCompressions: nat
    var contextTokens: seq<nat>

    function View(): Context
      reads this
    {
      Context(messages, lastPromptTokens)
    }

    predicate Valid()
      reads this
    {
      && nCompressions == |compressions|
      && forall i :: 0 <= i < |compressions| ==>
           && compressions[i].index == i
           && Reduces(settings, compressions[i].before, compressions[i].after)
    }

    constructor (settings: Settings, start: Messages)
      ensures Valid() && this.settings == settings
      ensures View() == Context(start, None) && compressions == [] && contextTokens == []
    {
      this.settings := settings;
      messages, lastPromptTokens := start, None;
      compressions, nCompressions, contextTokens := [], 0, [];
    }

    /** `_maybe_compress`: a compaction that reduces nothing is neither taken nor recorded. */
    method MaybeCompress(generated: Option<string>)
      requires Valid()
      modifies this
      ensures Valid()
      ensures messages == Compressed(settings, old(View()), generated)
      ensures lastPromptTokens == old(lastPromptTokens) && contextTokens == old(contextTokens)
      ensures nCompressions == |compressions|
      ensures var fired := Fires(settings, old(View()), generated);
        && |compressions| == |old(compressions)| + (if fired then 1 else 0)
        && old(compressions) <= compressions
        && (fired ==> var r := compressions[|old(compressions)|];
             r.index == |old(compressions)| && r.before == old(messages) && r.after == messages
             && r.kind == Candidate(settings, old(View()), generated).kind
             && r.summary == Candidate(settings, old(View()), generated).summary)
    {
      if !ShouldCompact(settings, View()) {
        return;
      }
      var nBefore := |messages|;
      var tokensBefore := settings.tokensOf(messages);
      var result := Compact(settings.compactor.value, generated, messages, settings.keepFirst, settings.keepLastTurns);
      var tokensAfter := settings.tokensOf(result.messages);
      if |result.messages| >= nBefore && tokensAfter >= tokensBefore {
        return;
      }
      var record := Record(|compressions|, result.kind, messages, result.messages, result.summary);
      compressions := compressions + [record];
      nCompressions := |compressions|;
      messages := result.messages;
    }

    /** `query`: compaction, the length series, and then the reply of the model. */
    method Query(r: Round)
      requires Valid()
      modifies this
      ensures Valid()
      ensures View() == AfterQuery(settings, old(View()), r)
      ensures contextTokens == old(contextTokens) + [settings.tokensOf(Compressed(settings, old(View()), r.generated))]
    {
      MaybeCompress(r.generated);
      contextTokens := contextTokens + [settings.tokensOf(messages)];
      messages := messages + [r.reply];
      if r.promptTokens.Some? {
        lastPromptTokens := r.promptTokens;
      }
    }

    /** A query, and the environment's observations of the commands in the reply. */
    method Step(r: Round)
      requires Valid()
      modifies this
      ensures Valid()
      ensures View() == AfterRound(settings, old(View()), r)
      ensures |contextTokens| == |old(contextTokens)| + 1
    {
      Query(r);
      messages := messages + r.observations;
    }
  }

  // ---------------------------------------------------------------- whole runs

  function Run(c: Settings, start: Messages, rounds: seq<Round>): Context {
    if rounds == [] then Context(start, None)
    else AfterRound(c, Run(c, start, rounds[..|rounds| - 1]), rounds[|rounds| - 1])
  }

  /** All that one round says. */
  function Said(r: Round): Messages {
    [r.reply] + r.observations
  }

  /** All that was ever said: the start and every later round, nothing compacted. */
  function Log(start: Messages, rounds: seq<Round>): Messages {
    if rounds == [] then start
    else Log(start, rounds[..|rounds| - 1]) + Said(rounds[|rounds| - 1])
  }

  /** As long as the log fits the head, nothing has been compacted. */
  lemma {:induction false} HeadIsWhole(c: Settings, start: Messages, rounds: seq<Round>)
    ensures |Log(start, rounds)| <= c.keepFirst + 2 ==> Run(c, start, rounds).messages == Log(start, rounds)
    decreases |rounds|
  {
    if rounds != [] {
      var r := rounds[|rounds| - 1];
      HeadIsWhole(c, start, rounds[..|rounds| - 1]);
      Assoc(Log(start, rounds[..|rounds| - 1]), [r.reply], r.observations);
    }
  }

  lemma CompressedKeepsHead(c: Settings, s: Context, generated: Option<string>)
    ensures Slice(s.messages, 0, c.keepFirst) <= Compressed(c, s, generated)
  {
  }

  /** In every run, whatever is said, the history and the history that a query shows begin
      with the first `keepFirst` messages of all that was ever said. */
  lemma {:induction false} HeadStays(c: Settings, start: Messages, rounds: seq<Round>, generated: Option<string>)
    ensures var s := Run(c, start, rounds); var first := Slice(Log(start, rounds), 0, c.keepFirst);
      && first <= s.messages
      && Slice(s.messages, 0, c.keepFirst) == first
      && first <= Compressed(c, s, generated)
    decreases |rounds|
  {
    var s, log := Run(c, start, rounds), Log(start, rounds);
    HeadIsWhole(c, start, rounds);
    if rounds != [] {
      var before, r := rounds[..|rounds| - 1], rounds[|rounds| - 1];
      HeadStays(c, start, before, r.generated);
      HeadIsWhole(c, start, before);
      var shown := Compressed(c, Run(c, start, before), r.generated);
      PrefixGrows(Log(start, before), shown, c.keepFirst, Said(r));
      Assoc(shown, [r.reply], r.observations);
    }
    SameHead(log, s.messages, c.keepFirst);
    CompressedKeepsHead(c, s, generated);
  }

  lemma SameHead(log: Messages, h: Messages, k: nat)
    requires Slice(log, 0, k) <= h
    requires |log| < k ==> h == log
    ensures Slice(h, 0, k) == Slice(log, 0, k)
  {
  }

  /** Two lists with the same first `k` elements keep them when both grow alike. */
  lemma PrefixGrows(log: Messages, shown: Messages, k: nat, more: Messages)
    requires Slice(log, 0, k) <= shown
    requires |log| < k ==> shown == log
    ensures Slice(log + more, 0, k) <= shown + more
  {
    if |log| >= k {
      assert Slice(log + more, 0, k) == Slice(log, 0, k);
    }
  }

  // ---------------------------------------------------------------- when a compaction is shown

  /** The prompt tokens that the server reported last in the run, if it ever did. */
  function LastReported(rounds: seq<Round>): Option<int> {
    if rounds == [] then None
    else
      var r := rounds[|rounds| - 1];
      if r.promptTokens.Some? then r.promptTokens else LastReported(rounds[..|rounds| - 1])
  }

  lemma {:induction false} ReportIsRemembered(c: Settings, start: Messages, rounds: seq<Round>)
    ensures Run(c, start, rounds).lastPromptTokens == LastReported(rounds)
    decreases |rounds|
  {
    if rounds != [] {
      ReportIsRemembered(c, start, rounds[..|rounds| - 1]);
    }
  }

  /** The tokens of the context: those last reported in the run, or counted if none were. */
  function TokensNow(c: Settings, start: Messages, rounds: seq<Round>): int {
    match LastReported(rounds)
    case Some(reported) => reported
    case None => c.tokensOf(Run(c, start, rounds).messages)
  }

  /** The token trigger. With no turn limit, a query of any run shows the candidate of the
      strategy if the context has at least `compressAtTokens` tokens, is long enough, and the
      candidate is shorter or has fewer tokens; and otherwise the history as it is. */
  lemma TokenTrigger(c: Settings, start: Messages, rounds: seq<Round>, generated: Option<string>)
    requires c.compressAtTurns <= 0 && c.compactor.Some?
    ensures var h := Run(c, start, rounds).messages;
      var shown := Compressed(c, Run(c, start, rounds), generated);
      var candidate := Compact(c.compactor.value, generated, h, c.keepFirst, c.keepLastTurns).messages;
      && (TokensNow(c, start, rounds) < c.compressAtTokens ==> shown == h)
      && (|h| <= c.keepFirst + 2 ==> shown == h)
      && (|candidate| >= |h| && c.tokensOf(candidate) >= c.tokensOf(h) ==> shown == h)
      && (TokensNow(c, start, rounds) >= c.compressAtTokens && |h| > c.keepFirst + 2 ==>
           (|candidate| < |h| || c.tokensOf(candidate) < c.tokensOf(h) ==> shown == candidate))
  {
    ReportIsRemembered(c, start, rounds);
  }

  /** The turn trigger, in the same way, on the tool messages of the history. */
  lemma TurnTrigger(c: Settings, start: Messages, rounds: seq<Round>, generated: Option<string>)
    requires c.compressAtTurns > 0 && c.compactor.Some?
    ensures var h := Run(c, start, rounds).messages;
      var shown := Compressed(c, Run(c, start, rounds), generated);
      var candidate := Compact(c.compactor.value, generated, h, c.keepFirst, c.keepLastTurns).messages;
      && (ToolCount(h) < c.compressAtTurns ==> shown == h)
      && (|h| <= c.keepFirst + 2 ==> shown == h)
      && (|candidate| >= |h| && c.tokensOf(candidate) >= c.tokensOf(h) ==> shown == h)
      && (ToolCount(h) >= c.compressAtTurns && |h| > c.keepFirst + 2 ==>
           (|candidate| < |h| || c.tokensOf(candidate) < c.tokensOf(h) ==> shown == candidate))
  {
  }

  /** A mask compaction removes no message; over budget it is shown exactly when it saves
      tokens. */
  lemma MaskIsShown(c: Settings, start: Messages, rounds: seq<Round>, generated: Option<string>)
    requires c.compressAtTurns <= 0 && c.compactor.Some? && c.compactor.value.Mask?
    requires TokensNow(c, start, rounds) >= c.compressAtTokens
    requires |Run(c, start, rounds).messages| > c.keepFirst + 2
    ensures var h := Run(c, start, rounds).messages;
      var masked := Compact(c.compactor.value, generated, h, c.keepFirst, c.keepLastTurns).messages;
      && |masked| == |h|
      && Compressed(c, Run(c, start, rounds), generated)
         == if c.tokensOf(masked) < c.tokensOf(h) then masked else h
  {
    TokenTrigger(c, start, rounds, generated);
    EndsStayVerbatim(c.compactor.value, generated, Run(c, start, rounds).messages, c.keepFirst, c.keepLastTurns);
  }

  /** With no compactor nothing is ever compacted. */
  lemma NoCompactor(c: Settings, start: Messages, rounds: seq<Round>, generated: Option<string>)
    requires c.compactor.None?
    ensures Compressed(c, Run(c, start, rounds), generated) == Run(c, start, rounds).messages
    ensures Run(c, start, rounds).messages == Log(start, rounds)
    decreases |rounds|
  {
    if rounds != [] {
      var before, r := rounds[..|rounds| - 1], rounds[|rounds| - 1];
      NoCompactor(c, start, before, r.generated);
      Assoc(Log(start, before), [r.reply], r.observations);
    }
  }

  /** What a query after a model compaction shows: the first messages of all that was ever
      said, the call and its answer with the summary for content, and the last turns. */
  lemma SummaryIsQueried(c: Settings, start: Messages, rounds: seq<Round>, z: string)
    requires c.compactor == Some(Model) && Fires(c, Run(c, start, rounds), Some(z))
    ensures var h := Run(c, start, rounds).messages;
      var shown := Compressed(c, Run(c, start, rounds), Some(z));
      var first := Slice(Log(start, rounds), 0, c.keepFirst);
      var tail := SplitHeadTail(h, c.keepFirst, c.keepLastTurns).tail;
      && |shown| == |first| + 2 + |tail|
      && shown[..|first|] == first
      && shown[|first|].role.Assistant? && |shown[|first|].calls| == 1
      && shown[|first| + 1].role.Tool? && shown[|first| + 1].content == z
      && shown[|first| + 1].callId == shown[|first|].calls[0]
      && shown[|first| + 2..] == tail
  {
    HeadStays(c, start, rounds, Some(z));
    SummaryIsShown(z, Run(c, start, rounds).messages, c.keepFirst, c.keepLastTurns);
  }

  // ---------------------------------------------------------------- accepted histories

  /** What every round says is accepted by itself: its reply's calls are answered in it. */
  predicate RoundsAccepted(rounds: seq<Round>) {
    forall i :: 0 <= i < |rounds| ==> Accepted(Said(rounds[i]))
  }

  lemma {:induction false} LogAccepted(start: Messages, rounds: seq<Round>)
    requires Accepted(start) && RoundsAccepted(rounds)
    ensures Accepted(Log(start, rounds))
    decreases |rounds|
  {
    if rounds != [] {
      LogAccepted(start, rounds[..|rounds| - 1]);
      JoinAccepted(Log(start, rounds[..|rounds| - 1]), Said(rounds[|rounds| - 1]));
    }
  }

  lemma CompressedAccepted(c: Settings, s: Context, generated: Option<string>)
    requires Accepted(s.messages) && Accepted(Slice(s.messages, 0, c.keepFirst))
    ensures Accepted(Compressed(c, s, generated))
  {
    if Fires(c, s, generated) {
      match c.compactor.value
      case Mask(o) => MaskAccepted(o, generated, s.messages, c.keepFirst, c.keepLastTurns);
      case _ => HeadSuffices(c.compactor.value, generated, s.messages, c.keepFirst, c.keepLastTurns);
    }
  }

  /** The head of an earlier log is the whole of it, or that of the later log. */
  lemma EarlierHead(log: Messages, more: Messages, k: nat)
    requires Accepted(log) && Accepted(Slice(log + more, 0, k))
    ensures Accepted(Slice(log, 0, k))
  {
    if |log| >= k {
      assert Slice(log, 0, k) == Slice(log + more, 0, k);
    } else {
      assert Slice(log, 0, k) == log;
    }
  }

  /** In every run from an accepted start, whose rounds answer all calls they make, with any
      number of parallel calls, any head length and any strategy of the three: if the first
      `keepFirst` messages ever said are accepted by themselves, then so is the history
      after any number of rounds, and the one that the next query shows to the model,
      whatever the summarizer does. */
  lemma {:induction false} HistoriesStayAccepted(c: Settings, start: Messages, rounds: seq<Round>,
                                                 generated: Option<string>)
    requires Accepted(start) && RoundsAccepted(rounds)
    requires Accepted(Slice(Log(start, rounds), 0, c.keepFirst))
    ensures var s := Run(c, start, rounds);
      Accepted(s.messages) && Accepted(Compressed(c, s, generated))
    decreases |rounds|
  {
    var s := Run(c, start, rounds);
    if rounds != [] {
      var before, r := rounds[..|rounds| - 1], rounds[|rounds| - 1];
      LogAccepted(start, before);
      EarlierHead(Log(start, before), Said(r), c.keepFirst);
      HistoriesStayAccepted(c, start, before, r.generated);
      var shown := Compressed(c, Run(c, start, before), r.generated);
      JoinAccepted(shown, Said(r));
      Assoc(shown, [r.reply], r.observations);
    }
    HeadStays(c, start, rounds, generated);
    CompressedAccepted(c, s, generated);
  }

  /** For model compaction that condition is exact: the history that a query shows after a
      compaction with a summary is accepted if and only if those first messages are. */
  lemma HeadDecides(c: Settings, start: Messages, rounds: seq<Round>, z: string)
    requires var s := Run(c, start, rounds);
      c.compactor == Some(Model) && Accepted(s.messages) && Fires(c, s, Some(z))
    ensures Accepted(Compressed(c, Run(c, start, rounds), Some(z)))
       <==> Accepted(Slice(Log(start, rounds), 0, c.keepFirst))
  {
    HeadStays(c, start, rounds, Some(z));
    ModelAccepted(z, Run(c, start, rounds).messages, c.keepFirst, c.keepLastTurns);
  }

  // ---------------------------------------------------------------- single-tool turns

  predicate SingleTool(rounds: seq<Round>) {
    forall i :: 0 <= i < |rounds| ==> OneTurn(rounds[i])
  }

  predicate OneTurn(r: Round) {
    |r.observations| == 1 && IsTurn(r.reply, r.observations[0])
  }

  predicate EvenHead(c: Settings) {
    c.keepFirst >= 2 && c.keepFirst % 2 == 0
  }

  lemma CompressedKeepsTurns(c: Settings, s: Context, generated: Option<string>)
    requires EvenHead(c) && WholeTurns(s.messages)
    ensures WholeTurns(Compressed(c, s, generated))
  {
    if Fires(c, s, generated) {
      CompactKeepsTurns(c.compactor.value, generated, s.messages, c.keepFirst, c.keepLastTurns);
    }
  }

  lemma AppendTurn(h: Messages, r: Round)
    requires WholeTurns(h) && OneTurn(r)
    ensures WholeTurns((h + [r.reply]) + r.observations)
    ensures ToolCount((h + [r.reply]) + r.observations) == ToolCount(h) + 1
    ensures (h + [r.reply]) + r.observations == h + Said(r)
  {
    var turn := Said(r);
    assert turn[2..] == [];
    assert Turns(turn);
    TurnsCount(turn);
    WholeTurnsConcat(h, turn);
    ToolCountConcat(h, turn);
    Assoc(h, [r.reply], r.observations);
  }

  /** In every run of single-tool turns with an even head, the history after any number of
      rounds, and the history that the next query shows to the model whatever the summarizer
      does, consists of whole turns, passes `validate_messages`, and begins with the first
      `keepFirst` messages of all that was ever said. */
  lemma {:induction false} HistoriesStayWhole(c: Settings, start: Messages, rounds: seq<Round>,
                                              generated: Option<string>)
    requires EvenHead(c) && WholeTurns(start) && SingleTool(rounds)
    ensures var s := Run(c, start, rounds); var shown := Compressed(c, s, generated);
      var first := Slice(Log(start, rounds), 0, c.keepFirst);
      && WholeTurns(s.messages) && Accepted(s.messages) && first <= s.messages
      && WholeTurns(shown) && Accepted(shown) && first <= shown
    decreases |rounds|
  {
    var s := Run(c, start, rounds);
    if rounds != [] {
      var before, r := rounds[..|rounds| - 1], rounds[|rounds| - 1];
      HistoriesStayWhole(c, start, before, r.generated);
      AppendTurn(Compressed(c, Run(c, start, before), r.generated), r);
    }
    WholeTurnsAccepted(s.messages);
    HeadStays(c, start, rounds, generated);
    CompressedKeepsTurns(c, s, generated);
    WholeTurnsAccepted(Compressed(c, s, generated));
  }

  // ---------------------------------------------------------------- the bound

  /** The most turns that a compaction leaves behind: those of the head, those of the
      tail, and the summary's. */
  function Leftover(c: Settings): int
    requires c.compactor.Some?
  {
    (c.keepFirst - 2) / 2 + TailTurns(c) + if c.compactor.value.Model? then 1 else 0
  }

  function TailTurns(c: Settings): nat {
    if c.keepLastTurns > 0 then c.keepLastTurns else 0
  }

  /** What the turn limit has to exceed: what a compaction leaves behind, and the turns of
      the longest history that is too short to be compacted. */
  function Room(c: Settings): int
    requires c.compactor.Some?
  {
    var short := c.keepFirst / 2;
    if Leftover(c) < short then short else Leftover(c)
  }

  /** Truncation and model compaction under the turn trigger. */
  predicate TurnLimited(c: Settings) {
    EvenHead(c) && c.compactor.Some? && !c.compactor.value.Mask? && c.compressAtTurns > 0
  }

  /** No number of turns to keep and a negative number are the same. */
  lemma CompactsWithTail(c: Settings, s: Context, generated: Option<string>)
    requires c.compactor.Some?
    ensures Candidate(c, s, generated) == Compact(c.compactor.value, generated, s.messages, c.keepFirst, TailTurns(c))
  {
    var body := Slice(s.messages, c.keepFirst, |s.messages|);
    assert c.keepLastTurns <= 0 ==> LastTurns(body, c.keepLastTurns) == LastTurns(body, 0);
  }

  /** Under the turn trigger, with room for what a compaction leaves behind, no query of
      any run shows the model `compressAtTurns` turns or more. */
  lemma QueriesStayBounded(c: Settings, start: Messages, rounds: seq<Round>, generated: Option<string>)
    requires TurnLimited(c) && WholeTurns(start) && SingleTool(rounds)
    requires c.compressAtTurns > Room(c)
    ensures ToolCount(Compressed(c, Run(c, start, rounds), generated)) < c.compressAtTurns
  {
    HistoriesStayWhole(c, start, rounds, generated);
    CompressedBounded(c, Run(c, start, rounds), generated);
  }

  lemma CompressedBounded(c: Settings, s: Context, generated: Option<string>)
    requires TurnLimited(c) && WholeTurns(s.messages)
    requires c.compressAtTurns > Room(c)
    ensures ToolCount(Compressed(c, s, generated)) < c.compressAtTurns
  {
    var h := s.messages;
    WholeTurnsCount(h);
    if ToolCount(h) >= c.compressAtTurns {
      assert |h| > c.keepFirst + 2;
      var out := Candidate(c, s, generated).messages;
      CompactsWithTail(c, s, generated);
      CompactedTurns(c.compactor.value, generated, h, c.keepFirst, TailTurns(c));
      CompactKeepsTurns(c.compactor.value, generated, h, c.keepFirst, TailTurns(c));
      WholeTurnsCount(out);
      assert Fires(c, s, generated);
    }
  }

  /** The bound is sharp. Without that room, a query on any history that has exactly
      `Room(c)` turns shows the model at least `compressAtTurns` turns. */
  lemma NoRoomNoBound(c: Settings, s: Context, generated: Option<string>)
    requires TurnLimited(c) && WholeTurns(s.messages)
    requires c.compressAtTurns <= Room(c) && ToolCount(s.messages) == Room(c)
    requires c.compactor.value.Model? ==> generated.Some?
    ensures ToolCount(Compressed(c, s, generated)) >= c.compressAtTurns
  {
    WholeTurnsCount(s.messages);
    if Fires(c, s, generated) {
      CompactsWithTail(c, s, generated);
      CompactedTurns(c.compactor.value, generated, s.messages, c.keepFirst, TailTurns(c));
    }
  }

  // ---------------------------------------------------------------- the bound from a new start

  /** What a run begins with: the system message and the task. */
  predicate NewStart(start: Messages) {
    |start| == 2 && start[0].role.System? && start[1].role.User?
  }

  /** No query of any run of single-tool turns from `start` reaches the limit. */
  ghost predicate AlwaysBelowLimit(c: Settings, start: Messages) {
    forall rounds, generated :: SingleTool(rounds) ==>
      ToolCount(Compressed(c, Run(c, start, rounds), generated)) < c.compressAtTurns
  }

  lemma NewStartIsWhole(start: Messages)
    requires NewStart(start)
    ensures WholeTurns(start) && ToolCount(start) == 0
  {
    assert start[2..] == [];
    WholeTurnsCount(start);
  }

  /** Up to the limit every round adds its turn and nothing is compacted. */
  lemma {:induction false} TurnsAddUp(c: Settings, start: Messages, rounds: seq<Round>)
    requires TurnLimited(c) && NewStart(start) && SingleTool(rounds)
    requires |rounds| <= c.compressAtTurns
    ensures var h := Run(c, start, rounds).messages;
      h == Log(start, rounds) && WholeTurns(h) && ToolCount(h) == |rounds|
    decreases |rounds|
  {
    if rounds == [] {
      NewStartIsWhole(start);
    } else {
      var before := rounds[..|rounds| - 1];
      TurnsAddUp(c, start, before);
      AppendTurn(Run(c, start, before).messages, rounds[|rounds| - 1]);
    }
  }

  /** A history whose turns all fit head and tail loses none in a compaction. */
  lemma NothingToDrop(c: Settings, s: Context, generated: Option<string>)
    requires TurnLimited(c) && WholeTurns(s.messages) && c.keepFirst < |s.messages|
    requires ToolCount(s.messages) < (c.keepFirst - 2) / 2 + TailTurns(c)
    ensures ToolCount(Candidate(c, s, generated).messages) >= ToolCount(s.messages)
  {
    var h, k, n := s.messages, c.keepFirst, TailTurns(c);
    var split := SplitHeadTail(h, k, n);
    CompactsWithTail(c, s, generated);
    HeadOfWholeTurns(h, k);
    Cut(h, k);
    ToolCountConcat(h[..k], h[k..]);
    SplitAfterHead(h, k, n);
    assert split.head == h[..k] && split.tail == h[k..];
    ToolCountConcat(split.head, split.tail);
    if c.compactor.value.Model? && generated.Some? {
      SummaryIsTurn(generated.value);
      ToolCountConcat(split.head, SummaryAsToolTurn(generated.value));
      ToolCountConcat(split.head + SummaryAsToolTurn(generated.value), split.tail);
    }
  }

  /** Without the room, a query on a history that has just reached the limit shows it. */
  lemma LimitIsShown(c: Settings, s: Context, generated: Option<string>)
    requires TurnLimited(c) && WholeTurns(s.messages)
    requires ToolCount(s.messages) == c.compressAtTurns <= Room(c)
    requires c.compactor.value.Model? ==> generated.Some?
    ensures ToolCount(Compressed(c, s, generated)) >= c.compressAtTurns
  {
    if Fires(c, s, generated) {
      WholeTurnsCount(s.messages);
      if ToolCount(s.messages) < (c.keepFirst - 2) / 2 + TailTurns(c) {
        NothingToDrop(c, s, generated);
      } else {
        CompactsWithTail(c, s, generated);
        CompactedTurns(c.compactor.value, generated, s.messages, c.keepFirst, TailTurns(c));
      }
    }
  }

  /** Without the room, every run from a new start reaches the limit: the query after
      `compressAtTurns` single-tool rounds, with a summary if the model is asked for one,
      shows the model at least `compressAtTurns` turns. */
  lemma LimitIsReached(c: Settings, start: Messages, rounds: seq<Round>, generated: Option<string>)
    requires TurnLimited(c) && NewStart(start) && SingleTool(rounds)
    requires |rounds| == c.compressAtTurns <= Room(c)
    requires c.compactor.value.Model? ==> generated.Some?
    ensures ToolCount(Compressed(c, Run(c, start, rounds), generated)) >= c.compressAtTurns
  {
    TurnsAddUp(c, start, rounds);
    LimitIsShown(c, Run(c, start, rounds), generated);
  }

  /** From a new start, the turn limit holds in every run exactly when it exceeds `Room(c)`. */
  lemma TurnLimitHolds(c: Settings, start: Messages)
    requires TurnLimited(c) && NewStart(start)
    ensures AlwaysBelowLimit(c, start) <==> c.compressAtTurns > Room(c)
  {
    if c.compressAtTurns > Room(c) {
      forall rounds, generated | SingleTool(rounds)
        ensures ToolCount(Compressed(c, Run(c, start, rounds), generated)) < c.compressAtTurns
      {
        NewStartIsWhole(start);
        QueriesStayBounded(c, start, rounds, generated);
      }
    } else {
      var r := Round(None, SummaryAsToolTurn("")[0], None, [SummaryAsToolTurn("")[1]]);
      var rounds := seq(c.compressAtTurns, _ => r);
      LimitIsReached(c, start, rounds, Some(""));
    }
  }

  /** Masking elides outputs but removes no turn, so it cannot bound the turns at all. */
  lemma MaskingNeverBoundsTurns(c: Settings, s: Context, generated: Option<string>)
    requires EvenHead(c) && WholeTurns(s.messages)
    requires c.compactor.Some? && c.compactor.value.Mask?
    ensures ToolCount(Compressed(c, s, generated)) == ToolCount(s.messages)
  {
    MaskKeepsCount(c.compactor.value.options, generated, s.messages, c.keepFirst, c.keepLastTurns);
  }

  const SYSTEM_AND_TASK := [Message(System, "", "", [], ""), Message(User, "", "", [], "")]
  const TWO_CALLS := Message(Assistant, "", "", ["a", "b"], "")
  const REPLY_A := Message(Tool, "", "", [], "a")
  const REPLY_B := Message(Tool, "", "", [], "b")
  const LAST_TURN := [Message(Assistant, "", "", ["c"], ""), Message(Tool, "", "", [], "c")]
  const PARALLEL := SYSTEM_AND_TASK + [TWO_CALLS, REPLY_A, REPLY_B] + LAST_TURN

  /** With two calls in one turn, even an even head can end between the two replies. */
  lemma ParallelCallsCut()
    ensures Accepted(PARALLEL)
    ensures !Accepted(Compact(Truncation, None, PARALLEL, 4, 1).messages)
  {
    ParallelAccepted();
    var body := [REPLY_B] + LAST_TURN;
    assert Slice(PARALLEL, 4, |PARALLEL|) == body;
    assert body[1..] == LAST_TURN;
    assert LAST_TURN[1..] == [LAST_TURN[1]] && LAST_TURN[1..][1..] == [];
    assert ToolCount(LAST_TURN[1..]) == 1;
    assert ToolCount(LAST_TURN) == 1;
    assert ToolCount(body) == 2;
    assert LastTurns(body, 1) == LAST_TURN;
    assert Slice(PARALLEL, 0, 4) == SYSTEM_AND_TASK + [TWO_CALLS, REPLY_A];
    var out := SYSTEM_AND_TASK + [TWO_CALLS, REPLY_A] + LAST_TURN;
    assert Compact(Truncation, None, PARALLEL, 4, 1).messages == out;
    assert out[3..] == [REPLY_A] + LAST_TURN;
    assert out[3..][1..] == LAST_TURN;
    assert Replies(LAST_TURN) == {};
    assert "b" !in Replies(out[3..]);
    assert TWO_CALLS.calls[1] in Missing(out, 2);
  }

  lemma ParallelAccepted()
    ensures Accepted(PARALLEL)
  {
    var replies := PARALLEL[3..];
    assert replies == [REPLY_A] + ([REPLY_B] + LAST_TURN);
    assert replies[1..] == [REPLY_B] + LAST_TURN;
    assert Replies(replies[1..]) == {"b"} + Replies(replies[1..][1..]);
    assert "a" in Replies(replies) && "b" in Replies(replies);
    assert Missing(PARALLEL, 2) == {};
    assert PARALLEL[6..][0].callId in Replies(PARALLEL[6..]);
    assert Missing(PARALLEL, 5) == {};
  }
}

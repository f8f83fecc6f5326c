/** Message histories: the check that calls are answered (`validate_messages`), and the
    head/middle/tail split that every compaction strategy shares. */
module History {
  import opened Optional
  import opened Seqs

  datatype Role = System | User | Assistant | Tool | Exit

  /** `calls` are the ids of an assistant's tool calls, `callId` the call a tool answers. */
  datatype Message = Message(role: Role, content: string, reasoning: string, calls: seq<string>, callId: string)

  type Messages = seq<Message>

  // ---------------------------------------------------------------- are all calls answered

  function Ids(calls: seq<string>): set<string> {
    set id | id in calls
  }

  /** The call ids that the tool messages at the beginning of `msgs` answer. */
  function Replies(msgs: Messages): set<string> {
    if msgs == [] || !msgs[0].role.Tool? then {} else {msgs[0].callId} + Replies(msgs[1..])
  }

  function Missing(msgs: Messages, i: nat): set<string>
    requires i < |msgs|
  {
    if msgs[i].role.Assistant? then Ids(msgs[i].calls) - Replies(msgs[i + 1..]) else {}
  }

  predicate Accepted(msgs: Messages) {
    forall i :: 0 <= i < |msgs| ==> Missing(msgs, i) == {}
  }

  /** `validate_messages`: None, or the first offending index with the ids missing there. */
  method ValidateMessages(messages: Messages) returns (bad: Option<(nat, set<string>)>)
    ensures bad.None? <==> Accepted(messages)
    ensures bad.Some? ==>
      && bad.value.0 < |messages|
      && bad.value.1 == Missing(messages, bad.value.0) != {}
      && forall i :: 0 <= i < bad.value.0 ==> Missing(messages, i) == {}
  {
    var i := 0;
    while i < |messages|
      invariant 0 <= i <= |messages|
      invariant forall k :: 0 <= k < i ==> Missing(messages, k) == {}
    {
      var msg := messages[i];
      if msg.role.Assistant? && msg.calls != [] {
        var expected := Ids(msg.calls);
        var responded := {};
        var j := i + 1;
        while j < |messages| && messages[j].role.Tool?
          invariant i < j <= |messages|
          invariant Replies(messages[i + 1..]) == responded + Replies(messages[j..])
        {
          assert messages[j..][1..] == messages[j + 1..];
          responded := responded + {messages[j].callId};
          j := j + 1;
        }
        var missing := expected - responded;
        if missing != {} {
          assert messages[j..] == [] || !messages[j..][0].role.Tool?;
          assert missing == Missing(messages, i);
          return Some((i, missing));
        }
      }
      i := i + 1;
    }
    return None;
  }

  /** Reply `j` answers call `id` of message `i`: only replies stand between them. */
  predicate AnswersFrom(msgs: Messages, i: nat, id: string, j: int)
    requires i < |msgs|
  {
    i < j < |msgs| && msgs[j].callId == id && forall k :: i < k <= j ==> msgs[k].role.Tool?
  }

  ghost predicate Answered(msgs: Messages, i: nat, id: string)
    requires i < |msgs|
  {
    exists j :: AnswersFrom(msgs, i, id, j)
  }

  lemma {:induction false} ReplyFound(msgs: Messages, i: nat, p: nat, id: string)
    requires i < p <= |msgs| && forall k :: i < k < p ==> msgs[k].role.Tool?
    requires forall k :: i < k < p ==> msgs[k].callId != id
    ensures id in Replies(msgs[p..]) <==> Answered(msgs, i, id)
    decreases |msgs| - p
  {
    if p < |msgs| && msgs[p].role.Tool? {
      RestOfRest(msgs, p, 1);
      if msgs[p].callId == id {
        assert AnswersFrom(msgs, i, id, p);
      } else {
        ReplyFound(msgs, i, p + 1, id);
      }
    }
  }

  /** A history passes exactly when every call of every assistant message is answered by one
      of the replies right behind that message. */
  lemma AcceptedMeans(msgs: Messages)
    ensures Accepted(msgs) <==> forall i: nat, id: string ::
      i < |msgs| && msgs[i].role.Assistant? && id in msgs[i].calls ==> Answered(msgs, i, id)
  {
    forall i: nat, id: string | i < |msgs|
      ensures Answered(msgs, i, id) <==> id in Replies(msgs[i + 1..])
    {
      ReplyFound(msgs, i, i + 1, id);
    }
    forall i: nat | i < |msgs| && msgs[i].role.Assistant?
      ensures Missing(msgs, i) == {} <==> forall id :: id in msgs[i].calls ==> id in Replies(msgs[i + 1..])
    {
      assert forall id :: id in Missing(msgs, i) <==> id in msgs[i].calls && id !in Replies(msgs[i + 1..]);
    }
  }

  // ---------------------------------------------------------------- the last n turns

  function ToolCount(msgs: Messages): nat {
    if msgs == [] then 0 else (if msgs[0].role.Tool? then 1 else 0) + ToolCount(msgs[1..])
  }

  /** The longest suffix of `msgs` with at most `n` tool messages. */
  function LastTurns(msgs: Messages, n: int): Messages {
    if n <= 0 then [] else if ToolCount(msgs) <= n then msgs else LastTurns(msgs[1..], n)
  }

  lemma ToolCountStep(msgs: Messages, i: nat)
    requires i < |msgs|
    ensures ToolCount(msgs[i..]) == (if msgs[i].role.Tool? then 1 else 0) + ToolCount(msgs[i + 1..])
  {
    assert msgs[i..][1..] == msgs[i + 1..];
  }

  /** A suffix with `n` tool messages, before which comes nothing or another tool message. */
  lemma {:induction false} SuffixIsLastTurns(msgs: Messages, p: nat, n: int)
    requires p <= |msgs| && n > 0
    requires ToolCount(msgs[p..]) == n
    requires p > 0 ==> msgs[p - 1].role.Tool?
    ensures LastTurns(msgs, n) == msgs[p..]
  {
    if p == 0 {
      assert msgs[0..] == msgs;
    } else {
      assert msgs[1..][p - 1..] == msgs[p..];
      MoreTools(msgs, 0, p);
      assert msgs[0..] == msgs;
      SuffixIsLastTurns(msgs[1..], p - 1, n);
    }
  }

  lemma {:induction false} MoreTools(msgs: Messages, q: nat, p: nat)
    requires q < p <= |msgs| && msgs[p - 1].role.Tool?
    ensures ToolCount(msgs[q..]) > ToolCount(msgs[p..])
    decreases p - q
  {
    ToolCountStep(msgs, q);
    if q + 1 < p {
      MoreTools(msgs, q + 1, p);
    }
  }

  /** The number of tool messages from index `i` on. */
  ghost function CountFrom(msgs: Messages, i: nat): nat
    requires i <= |msgs|
    decreases |msgs| - i
  {
    if i == |msgs| then 0 else (if msgs[i].role.Tool? then 1 else 0) + CountFrom(msgs, i + 1)
  }

  lemma {:induction false} CountFromIsCount(msgs: Messages, i: nat)
    requires i <= |msgs|
    ensures CountFrom(msgs, i) == ToolCount(msgs[i..])
    decreases |msgs| - i
  {
    if i < |msgs| {
      ToolCountStep(msgs, i);
      CountFromIsCount(msgs, i + 1);
    }
  }

  lemma FewerTurns(msgs: Messages, n: int)
    requires CountFrom(msgs, 0) < n
    ensures LastTurns(msgs, n) == msgs
  {
    CountFromIsCount(msgs, 0);
    Whole(msgs);
  }

  /** The inner loop: back over the messages of the turn that ends before index `i`. */
  method TurnStart(messages: Messages, i: nat) returns (start: nat)
    requires i < |messages|
    ensures start <= i && CountFrom(messages, start) == CountFrom(messages, i)
    ensures start > 0 ==> messages[start - 1].role.Tool?
  {
    var j := i - 1;
    while j >= 0 && !messages[j].role.Tool?
      invariant -1 <= j < i
      invariant CountFrom(messages, j + 1) == CountFrom(messages, i)
    {
      j := j - 1;
    }
    return j + 1;
  }

  /** `last_n_turns`. */
  method LastNTurns(messages: Messages, n: int) returns (r: Messages)
    ensures r == LastTurns(messages, n)
  {
    if n <= 0 {
      return [];
    }
    hide LastTurns, ToolCount;
    var toolCount := 0;
    var i := |messages| - 1;
    while i >= 0
      invariant -1 <= i < |messages|
      invariant toolCount == CountFrom(messages, i + 1) < n
    {
      if messages[i].role.Tool? {
        toolCount := toolCount + 1;
        if toolCount == n {
          var start := TurnStart(messages, i);
          CountFromIsCount(messages, start);
          SuffixIsLastTurns(messages, start, n);
          return messages[start..];
        }
      }
      i := i - 1;
    }
    FewerTurns(messages, n);
    return messages;
  }

  /** For positive `n` the result is the one longest suffix with exactly `n` tool
      messages, or everything when there are fewer. */
  lemma {:induction false} LastTurnsIsLongest(msgs: Messages, n: int)
    requires n > 0
    ensures ToolCount(msgs) < n ==> LastTurns(msgs, n) == msgs
    ensures ToolCount(msgs) >= n ==>
      exists p :: 0 <= p <= |msgs| && LastTurns(msgs, n) == msgs[p..] && ToolCount(msgs[p..]) == n
        && forall q :: 0 <= q < p ==> ToolCount(msgs[q..]) > n
  {
    if ToolCount(msgs) == n {
      assert LastTurns(msgs, n) == msgs[0..];
    } else if ToolCount(msgs) > n {
      LastTurnsIsLongest(msgs[1..], n);
      var p :| 0 <= p <= |msgs[1..]| && LastTurns(msgs[1..], n) == msgs[1..][p..] && ToolCount(msgs[1..][p..]) == n
        && forall q :: 0 <= q < p ==> ToolCount(msgs[1..][q..]) > n;
      assert msgs[1..][p..] == msgs[p + 1..];
      assert msgs[0..] == msgs;
      forall q | 0 <= q < p + 1 ensures ToolCount(msgs[q..]) > n {
        if q > 0 {
          assert msgs[q..] == msgs[1..][q - 1..];
        }
      }
    }
  }

  lemma {:induction false} LastTurnsIsSuffix(msgs: Messages, n: int)
    ensures |LastTurns(msgs, n)| <= |msgs|
    ensures LastTurns(msgs, n) == msgs[|msgs| - |LastTurns(msgs, n)|..]
  {
    if n > 0 && ToolCount(msgs) > n {
      LastTurnsIsSuffix(msgs[1..], n);
    }
  }

  /** The last turns end where the history ends, hence on a tool message, or are empty,
      exactly when the history itself ends on one, or nothing was there or asked for. */
  lemma {:induction false} EndsOnTool(msgs: Messages, n: int)
    ensures var r := LastTurns(msgs, n);
      && (r != [] ==> msgs != [] && r[|r| - 1] == msgs[|msgs| - 1])
      && (r == [] || r[|r| - 1].role.Tool? <==> n <= 0 || msgs == [] || msgs[|msgs| - 1].role.Tool?)
  {
    if n > 0 && ToolCount(msgs) > n {
      assert ToolCount(msgs[1..]) > 0;
      EndsOnTool(msgs[1..], n);
    }
  }

  /** A history whose last turn still lacks its reply: the last turns end on that call. */
  lemma UnansweredCallIsLast(call: Message, reply: Message, next: Message)
    requires call.role.Assistant? && reply.role.Tool? && next.role.Assistant?
    ensures LastTurns([call, reply, next], 1) == [call, reply, next]
  {
    var msgs := [call, reply, next];
    assert msgs[1..] == [reply, next] && msgs[1..][1..] == [next] && msgs[1..][1..][1..] == [];
    assert ToolCount(msgs[1..][1..]) == 0;
    assert ToolCount(msgs[1..]) == 1;
  }

  // ---------------------------------------------------------------- head, middle, tail

  datatype Split = Split(head: Messages, middle: Messages, tail: Messages)

  /** Python's `s[a:b]` for non-negative bounds. */
  function Slice<T>(s: seq<T>, a: nat, b: nat): seq<T> {
    var hi := if b < |s| then b else |s|;
    if a < hi then s[a..hi] else []
  }

  function SplitHeadTail(messages: Messages, keepFirst: nat, keepLastTurns: int): Split {
    var tail := LastTurns(Slice(messages, keepFirst, |messages|), keepLastTurns);
    LastTurnsIsSuffix(Slice(messages, keepFirst, |messages|), keepLastTurns);
    var end := if tail != [] then |messages| - |tail| else |messages|;
    Split(Slice(messages, 0, keepFirst), Slice(messages, keepFirst, end), tail)
  }

  lemma SplitAfterHead(h: Messages, k: nat, n: int)
    requires k < |h|
    ensures |LastTurns(h[k..], n)| <= |h[k..]|
    ensures SplitHeadTail(h, k, n)
         == Split(h[..k], h[k..][..|h| - k - |LastTurns(h[k..], n)|], LastTurns(h[k..], n))
  {
    assert Slice(h, k, |h|) == h[k..];
    LastTurnsIsSuffix(h[k..], n);
    var end := |h| - |LastTurns(h[k..], n)|;
    assert Slice(h, k, end) == h[k..][..end - k];
  }

  lemma SplitAllHead(h: Messages, k: nat, n: int)
    requires k >= |h|
    ensures SplitHeadTail(h, k, n) == Split(h, [], [])
  {
    assert Slice(h, k, |h|) == [];
    assert LastTurns([], n) == [];
    assert Slice(h, 0, k) == h;
  }

  /** The split is a partition, whatever the bounds. */
  lemma SplitIsPartition(messages: Messages, keepFirst: nat, keepLastTurns: int)
    ensures var s := SplitHeadTail(messages, keepFirst, keepLastTurns);
      && s.head + s.middle + s.tail == messages
      && |s.head| == if keepFirst < |messages| then keepFirst else |messages|
  {
    if keepFirst < |messages| {
      var body := messages[keepFirst..];
      SplitAfterHead(messages, keepFirst, keepLastTurns);
      LastTurnsIsSuffix(body, keepLastTurns);
      Cut(body, |body| - |LastTurns(body, keepLastTurns)|);
      Cut(messages, keepFirst);
      var s := SplitHeadTail(messages, keepFirst, keepLastTurns);
      Assoc(s.head, s.middle, s.tail);
    } else {
      SplitAllHead(messages, keepFirst, keepLastTurns);
      Whole(messages);
    }
  }

  // ---------------------------------------------------------------- histories of whole turns

  /** An assistant message with one tool call, and the reply to that call. */
  predicate IsTurn(call: Message, reply: Message) {
    && call.role.Assistant? && |call.calls| == 1
    && reply.role.Tool? && reply.callId == call.calls[0]
  }

  predicate Turns(msgs: Messages) {
    msgs == [] || (|msgs| >= 2 && IsTurn(msgs[0], msgs[1]) && Turns(msgs[2..]))
  }

  /** System message, task, and then whole single-tool turns. */
  predicate WholeTurns(h: Messages) {
    |h| >= 2 && h[0].role.System? && h[1].role.User? && Turns(h[2..])
  }

  lemma {:induction false} TurnsCount(msgs: Messages)
    requires Turns(msgs)
    ensures |msgs| == 2 * ToolCount(msgs)
  {
    if msgs != [] {
      assert msgs[1..][1..] == msgs[2..];
      TurnsCount(msgs[2..]);
    }
  }

  lemma {:induction false} TurnsConcat(a: Messages, b: Messages)
    requires Turns(a) && Turns(b)
    ensures Turns(a + b)
  {
    if a == [] {
      assert a + b == b;
    } else {
      assert (a + b)[2..] == a[2..] + b;
      TurnsConcat(a[2..], b);
    }
  }

  lemma {:induction false} TurnsSplit(msgs: Messages, i: nat)
    requires Turns(msgs) && i <= |msgs| && i % 2 == 0
    ensures Turns(msgs[..i]) && Turns(msgs[i..])
  {
    if i == 0 {
      assert msgs[0..] == msgs;
    } else {
      TurnsCount(msgs);
      TurnsSplit(msgs[2..], i - 2);
      assert msgs[2..][..i - 2] == msgs[..i][2..];
      assert msgs[2..][i - 2..] == msgs[i..];
    }
  }

  /** The last turns of whole turns are whole turns: as many as asked for, or all. */
  lemma {:induction false} LastOfTurns(msgs: Messages, n: int)
    requires Turns(msgs)
    ensures Turns(LastTurns(msgs, n))
    ensures ToolCount(LastTurns(msgs, n)) == if n <= 0 then 0 else if ToolCount(msgs) <= n then ToolCount(msgs) else n
  {
    if n > 0 && ToolCount(msgs) > n {
      assert msgs[1..][1..] == msgs[2..];
      LastOfTurns(msgs[2..], n);
    }
  }

  lemma {:induction false} TurnsAccepted(msgs: Messages)
    requires Turns(msgs)
    ensures Accepted(msgs)
  {
    if msgs != [] {
      TurnsAccepted(msgs[2..]);
      forall i | 0 <= i < |msgs| ensures Missing(msgs, i) == {} {
        if i == 0 {
          assert msgs[1..][0].callId in Replies(msgs[1..]);
        } else if i >= 2 {
          assert Missing(msgs[2..], i - 2) == {};
          assert msgs[2..][i - 2 + 1..] == msgs[i + 1..];
        }
      }
    }
  }

  lemma WholeTurnsAccepted(h: Messages)
    requires WholeTurns(h)
    ensures Accepted(h)
  {
    TurnsAccepted(h[2..]);
    forall i | 0 <= i < |h| ensures Missing(h, i) == {} {
      if i >= 2 {
        assert Missing(h[2..], i - 2) == {};
        assert h[2..][i - 2 + 1..] == h[i + 1..];
      }
    }
  }

  lemma {:induction false} ToolCountConcat(a: Messages, b: Messages)
    ensures ToolCount(a + b) == ToolCount(a) + ToolCount(b)
  {
    if a == [] {
      assert a + b == b;
    } else {
      assert (a + b)[1..] == a[1..] + b;
      ToolCountConcat(a[1..], b);
    }
  }

  lemma WholeTurnsCount(h: Messages)
    requires WholeTurns(h)
    ensures |h| == 2 + 2 * ToolCount(h)
  {
    TurnsCount(h[2..]);
    assert h[1..][1..] == h[2..];
  }
}

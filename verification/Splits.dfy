/** Splitting a trajectory at a token threshold: the split used for training, the split
    points enumerated for a sweep, and the truncation of the continuation. */
module Splits {
  import opened Optional
  import opened Seqs

  /** `S` is a trajectory step; metadata is carried along unread. */
  datatype Trajectory<S> = Trajectory(
    task: string, steps: seq<S>, continuation: seq<S>, summary: string,
    trajectoryId: string, metadata: string, agentSystemPrompt: string)

  function Take<S>(s: seq<S>, n: nat): seq<S> {
    if n < |s| then s[..n] else s
  }

  function Drop<S>(s: seq<S>, n: nat): seq<S> {
    if n < |s| then s[n..] else []
  }

  /** `with_prefix`; the agent system prompt is not carried over. */
  function WithPrefix<S>(t: Trajectory<S>, n: nat): Trajectory<S> {
    Trajectory(t.task, Take(t.steps, n), Drop(t.steps, n) + t.continuation,
               t.summary, t.trajectoryId, t.metadata, "")
  }

  /** Token lengths of the (assistant, tool) turns; an odd last step is not measured. */
  function TurnLens<S>(steps: seq<S>, tokens: seq<S> -> nat): (lens: seq<nat>)
    ensures |lens| == |steps| / 2
  {
    seq(|steps| / 2, i requires 0 <= i < |steps| / 2 => tokens(steps[2 * i..2 * i + 2]))
  }

  function Total(lens: seq<nat>, k: nat): nat
    requires k <= |lens|
  {
    if k == 0 then 0 else Total(lens, k - 1) + lens[k - 1]
  }

  lemma {:induction false} TotalGrows(lens: seq<nat>, j: nat, k: nat)
    requires j <= k <= |lens|
    ensures Total(lens, j) <= Total(lens, k)
  {
    if j < k {
      TotalGrows(lens, j, k - 1);
    }
  }

  /** Where tokens add up, so do turns: the first `k` turns measure as much as their
      messages together. */
  lemma {:induction false} TurnsMeasure<S>(steps: seq<S>, tokens: seq<S> -> nat, k: nat)
    requires 2 * k <= |steps|
    requires tokens([]) == 0 && forall a, b :: tokens(a + b) == tokens(a) + tokens(b)
    ensures Total(TurnLens(steps, tokens), k) == tokens(steps[..2 * k])
  {
    if k > 0 {
      TurnsMeasure(steps, tokens, k - 1);
      assert steps[..2 * k] == steps[..2 * (k - 1)] + steps[2 * (k - 1)..2 * k];
    } else {
      assert steps[..0] == [];
    }
  }

  // ---------------------------------------------------------------- the threshold split

  /** The least turn from `k` on at which the cumulative length reaches the threshold. */
  function FirstCrossing(lens: seq<nat>, threshold: int, k: nat): (r: Option<nat>)
    requires k <= |lens| + 1
    ensures r.Some? ==> k <= r.value <= |lens| && Total(lens, r.value) >= threshold
    ensures r.Some? ==> forall j :: k <= j < r.value ==> Total(lens, j) < threshold
    ensures r.None? ==> forall j :: k <= j <= |lens| ==> Total(lens, j) < threshold
    decreases |lens| + 1 - k
  {
    if k == |lens| + 1 then None
    else if Total(lens, k) >= threshold then Some(k)
    else FirstCrossing(lens, threshold, k + 1)
  }

  predicate WithinLimits(lens: seq<nat>, k: nat, minPrefix: int, minSuffix: int) {
    k >= minPrefix && |lens| - k >= minSuffix
  }

  /** How many whole turns fit into the budget, from the front. */
  function KeptTurns(lens: seq<nat>, budget: nat, k: nat): (kept: nat)
    requires k <= |lens| && Total(lens, k) <= budget
    ensures k <= kept <= |lens|
    decreases |lens| - k
  {
    if k < |lens| && Total(lens, k + 1) <= budget then KeptTurns(lens, budget, k + 1) else k
  }

  lemma {:induction false} KeptTurnsIsLongest(lens: seq<nat>, budget: nat, k: nat, m: nat)
    requires k <= |lens| && Total(lens, k) <= budget
    requires m <= |lens|
    ensures Total(lens, KeptTurns(lens, budget, k)) <= budget
    ensures Total(lens, m) <= budget ==> m <= KeptTurns(lens, budget, k)
    decreases |lens| - k
  {
    if k < |lens| && Total(lens, k + 1) <= budget {
      KeptTurnsIsLongest(lens, budget, k + 1, m);
    } else if m > k {
      TotalGrows(lens, k + 1, m);
    }
  }

  /** `_truncate_continuation`. */
  method TruncateContinuation<S>(t: Trajectory<S>, tokens: seq<S> -> nat, budget: nat)
    returns (r: Option<Trajectory<S>>)
    ensures var kept := KeptTurns(TurnLens(t.continuation, tokens), budget, 0);
      r == if kept == 0 then None else Some(t.(continuation := t.continuation[..2 * kept],
             agentSystemPrompt := if 2 * kept == |t.continuation| then t.agentSystemPrompt else ""))
  {
    var cont := t.continuation;
    var turnLens := TurnLens(cont, tokens);
    var total, kept, i := 0, 0, 0;
    while i < |turnLens|
      invariant 0 <= i <= |turnLens| && kept == 2 * i
      invariant total == Total(turnLens, i) <= budget
      invariant KeptTurns(turnLens, budget, i) == KeptTurns(turnLens, budget, 0)
    {
      total := total + turnLens[i];
      if total > budget {
        break;
      }
      kept := (i + 1) * 2;
      i := i + 1;
    }
    if kept == 0 {
      return None;
    }
    if kept == |cont| {
      assert cont[..kept] == cont;
      return Some(t);
    }
    return Some(Trajectory(t.task, t.steps, cont[..kept], t.summary, t.trajectoryId, t.metadata, ""));
  }

  /** `threshold_split`. */
  method ThresholdSplit<S>(t: Trajectory<S>, tokens: seq<S> -> nat, splitAtTokens: int,
                           minPrefix: int, minSuffix: int, maxContinuationTokens: int)
    returns (r: Option<Trajectory<S>>)
    ensures var at := FirstCrossing(TurnLens(t.steps, tokens), splitAtTokens, 1);
      r == SplitAt(t, tokens, at, minPrefix, minSuffix, maxContinuationTokens)
  {
    var turnLens := TurnLens(t.steps, tokens);
    var n := |turnLens|;
    var total, k := 0, 1;
    while k <= n
      invariant 1 <= k <= n + 1
      invariant total == Total(turnLens, k - 1)
      invariant FirstCrossing(turnLens, splitAtTokens, 1) == FirstCrossing(turnLens, splitAtTokens, k)
    {
      total := total + turnLens[k - 1];
      if total >= splitAtTokens {
        if k < minPrefix || n - k < minSuffix {
          return None;
        }
        r := Some(WithPrefix(t, k * 2));
        if maxContinuationTokens > 0 {
          r := TruncateContinuation(r.value, tokens, maxContinuationTokens);
        }
        return r;
      }
      k := k + 1;
    }
    return None;
  }

  /** The split when the threshold is first reached at turn `at`. */
  function SplitAt<S>(t: Trajectory<S>, tokens: seq<S> -> nat, at: Option<nat>,
                      minPrefix: int, minSuffix: int, cap: int): Option<Trajectory<S>>
  {
    match at
    case None => None
    case Some(k) =>
      if !WithinLimits(TurnLens(t.steps, tokens), k, minPrefix, minSuffix) then None
      else
        var split := WithPrefix(t, k * 2);
        if cap <= 0 then Some(split)
        else
          var kept := KeptTurns(TurnLens(split.continuation, tokens), cap, 0);
          if kept == 0 then None else Some(split.(continuation := split.continuation[..2 * kept]))
  }

  /** A split takes nothing away from the middle: steps and continuation are a prefix of
      the original, and all of it without a cap. */
  lemma SplitIsPrefix<S>(t: Trajectory<S>, tokens: seq<S> -> nat, at: nat, minPrefix: int, minSuffix: int, cap: int)
    requires at <= |TurnLens(t.steps, tokens)|
    requires SplitAt(t, tokens, Some(at), minPrefix, minSuffix, cap).Some?
    ensures var s := SplitAt(t, tokens, Some(at), minPrefix, minSuffix, cap).value;
      && s.steps == t.steps[..2 * at]
      && s.steps + s.continuation <= t.steps + t.continuation
      && (cap <= 0 ==> s.steps + s.continuation == t.steps + t.continuation)
  {
    RestOfSplit(t, at);
    Cut(t.steps, 2 * at);
    Assoc(t.steps[..2 * at], t.steps[2 * at..], t.continuation);
  }

  /** The split exactly: there is one if and only if some turn reaches the threshold and the
      first that does leaves enough turns on both sides, and, with a cap, the turn after it
      fits; it lies there, and takes over everything but the agent's system prompt. */
  lemma SplitExactly<S>(t: Trajectory<S>, tokens: seq<S> -> nat, threshold: int,
                        minPrefix: int, minSuffix: int, cap: int, k: nat)
    requires 1 <= k <= |TurnLens(t.steps, tokens)|
    requires Total(TurnLens(t.steps, tokens), k) >= threshold
    requires forall j :: 1 <= j < k ==> Total(TurnLens(t.steps, tokens), j) < threshold
    ensures var lens := TurnLens(t.steps, tokens);
      var rest := t.steps[2 * k..] + t.continuation;
      var r := SplitAt(t, tokens, FirstCrossing(lens, threshold, 1), minPrefix, minSuffix, cap);
      && (r.Some? <==> k >= minPrefix && |lens| - k >= minSuffix
                       && (cap > 0 ==> |rest| >= 2 && tokens(rest[..2]) <= cap))
      && (r.Some? ==>
           && r.value.steps == t.steps[..2 * k]
           && (cap <= 0 ==> r.value.continuation == rest)
           && r.value.task == t.task && r.value.summary == t.summary
           && r.value.trajectoryId == t.trajectoryId && r.value.metadata == t.metadata
           && r.value.agentSystemPrompt == "")
  {
    var lens := TurnLens(t.steps, tokens);
    var rest := t.steps[2 * k..] + t.continuation;
    var first := FirstCrossing(lens, threshold, 1);
    assert first == Some(k);
    RestOfSplit(t, k);
    if cap > 0 {
      SomeKept(TurnLens(rest, tokens), cap);
      assert |rest| >= 2 ==> TurnLens(rest, tokens)[0] == tokens(rest[..2]);
    }
  }

  lemma SomeKept(lens: seq<nat>, budget: nat)
    ensures KeptTurns(lens, budget, 0) > 0 <==> lens != [] && lens[0] <= budget
  {
    assert lens != [] ==> Total(lens, 1) == lens[0];
    if lens != [] && lens[0] <= budget {
      KeptTurnsIsLongest(lens, budget, 0, 1);
    }
  }

  lemma RestOfSplit<S>(t: Trajectory<S>, at: nat)
    requires 2 * at <= |t.steps|
    ensures WithPrefix(t, 2 * at).steps == t.steps[..2 * at]
    ensures WithPrefix(t, 2 * at).continuation == t.steps[2 * at..] + t.continuation
  {
  }

  /** With a cap the continuation is the longest prefix of whole turns that fits. */
  lemma CappedSplitIsLongest<S>(t: Trajectory<S>, tokens: seq<S> -> nat, at: nat,
                                minPrefix: int, minSuffix: int, cap: nat)
    requires at <= |TurnLens(t.steps, tokens)| && cap > 0
    requires SplitAt(t, tokens, Some(at), minPrefix, minSuffix, cap).Some?
    ensures var s := SplitAt(t, tokens, Some(at), minPrefix, minSuffix, cap).value;
      var rest := t.steps[2 * at..] + t.continuation;
      var lens := TurnLens(rest, tokens);
      var kept := |s.continuation| / 2;
      && 1 <= kept <= |lens| && s.continuation == rest[..2 * kept]
      && Total(lens, kept) <= cap
      && forall m :: kept < m <= |lens| ==> Total(lens, m) > cap
  {
    var rest := t.steps[2 * at..] + t.continuation;
    var kept := KeptTurns(TurnLens(rest, tokens), cap, 0);
    RestOfSplit(t, at);
    KeptIsLongest(TurnLens(rest, tokens), cap);
    hide TurnLens, Total, KeptTurns;
    assert SplitAt(t, tokens, Some(at), minPrefix, minSuffix, cap).value.continuation == rest[..2 * kept];
    assert |rest[..2 * kept]| / 2 == kept;
  }

  lemma KeptIsLongest(lens: seq<nat>, budget: nat)
    ensures var kept := KeptTurns(lens, budget, 0);
      && Total(lens, kept) <= budget
      && forall m :: kept < m <= |lens| ==> Total(lens, m) > budget
  {
    forall m | 0 <= m <= |lens|
      ensures Total(lens, KeptTurns(lens, budget, 0)) <= budget
      ensures Total(lens, m) <= budget ==> m <= KeptTurns(lens, budget, 0)
    {
      KeptTurnsIsLongest(lens, budget, 0, m);
    }
    assert Total(lens, 0) == 0;
  }

  // ---------------------------------------------------------------- enumerated splits

  /** Turn `k` is one to be listed. */
  predicate Listed(lens: seq<nat>, lo: int, hi: int, minPrefix: int, minSuffix: int, k: nat)
    requires k <= |lens|
  {
    lo <= Total(lens, k) <= hi && WithinLimits(lens, k, minPrefix, minSuffix)
  }

  /** All listed turns from `k` on, in order, with their cumulative lengths. */
  function Listing(lens: seq<nat>, lo: int, hi: int, minPrefix: int, minSuffix: int, k: nat): seq<(nat, nat)>
    requires k <= |lens| + 1
    decreases |lens| + 1 - k
  {
    if k == |lens| + 1 then []
    else
      (if Listed(lens, lo, hi, minPrefix, minSuffix, k) then [(k, Total(lens, k))] else [])
      + Listing(lens, lo, hi, minPrefix, minSuffix, k + 1)
  }

  lemma {:induction false} NothingBeyond(lens: seq<nat>, lo: int, hi: int, minPrefix: int, minSuffix: int, k: nat)
    requires k <= |lens| && Total(lens, k) > hi
    ensures Listing(lens, lo, hi, minPrefix, minSuffix, k) == []
    decreases |lens| - k
  {
    if k < |lens| {
      NothingBeyond(lens, lo, hi, minPrefix, minSuffix, k + 1);
    }
  }

  /** Python's `s[::stride]` for a positive stride. */
  function Every<T>(s: seq<T>, stride: nat): seq<T>
    requires stride > 0
    decreases |s|
  {
    if s == [] then [] else [s[0]] + Every(Drop(s, stride), stride)
  }

  /** Thinning takes every element at a multiple of the stride, and no other. */
  lemma {:induction false} EveryIs<T>(s: seq<T>, stride: nat, i: nat)
    requires stride > 0
    ensures i < |Every(s, stride)| <==> i * stride < |s|
    ensures i * stride < |s| ==> Every(s, stride)[i] == s[i * stride]
    decreases |s|
  {
    if s != [] && i > 0 {
      EveryIs(Drop(s, stride), stride, i - 1);
      assert i * stride == (i - 1) * stride + stride;
    }
  }

  /** The list holds exactly the turns in range that leave enough on both sides, each with
      its cumulative length, in order. */
  lemma {:induction false} ListingIs(lens: seq<nat>, lo: int, hi: int, minPrefix: int, minSuffix: int,
                                     k: nat, turn: (nat, nat))
    requires k <= |lens| + 1
    ensures var list := Listing(lens, lo, hi, minPrefix, minSuffix, k);
      && (turn in list <==>
           && k <= turn.0 <= |lens| && turn.1 == Total(lens, turn.0) && lo <= turn.1 <= hi
           && turn.0 >= minPrefix && |lens| - turn.0 >= minSuffix)
      && forall i, j :: 0 <= i < j < |list| ==> list[i].0 < list[j].0
    decreases |lens| + 1 - k
  {
    if k <= |lens| {
      ListingIs(lens, lo, hi, minPrefix, minSuffix, k + 1, turn);
      ListedFrom(lens, lo, hi, minPrefix, minSuffix, k + 1);
    }
  }

  lemma {:induction false} ListedFrom(lens: seq<nat>, lo: int, hi: int, minPrefix: int, minSuffix: int, k: nat)
    requires k <= |lens| + 1
    ensures forall x :: x in Listing(lens, lo, hi, minPrefix, minSuffix, k) ==> x.0 >= k
    decreases |lens| + 1 - k
  {
    if k <= |lens| {
      ListedFrom(lens, lo, hi, minPrefix, minSuffix, k + 1);
    }
  }

  /** `enumerate_split_turns`; the early exit of the loop loses nothing. */
  method EnumerateSplitTurns<S>(t: Trajectory<S>, tokens: seq<S> -> nat, minTokens: int, maxTokens: int,
                                minPrefix: int, minSuffix: int, stride: int)
    returns (turns: seq<(nat, nat)>)
    ensures var all := Listing(TurnLens(t.steps, tokens), minTokens, maxTokens, minPrefix, minSuffix, 1);
      turns == if stride > 1 then Every(all, stride) else all
  {
    var turnLens := TurnLens(t.steps, tokens);
    var n := |turnLens|;
    var out: seq<(nat, nat)> := [];
    var total, k := 0, 1;
    while k <= n
      invariant 1 <= k <= n + 1
      invariant total == Total(turnLens, k - 1)
      invariant out + Listing(turnLens, minTokens, maxTokens, minPrefix, minSuffix, k)
             == Listing(turnLens, minTokens, maxTokens, minPrefix, minSuffix, 1)
    {
      ListingStep(turnLens, minTokens, maxTokens, minPrefix, minSuffix, k, out);
      total := total + turnLens[k - 1];
      k := k + 1;
      if total < minTokens {
        continue;
      }
      if total > maxTokens {
        break;
      }
      if k - 1 < minPrefix || n - (k - 1) < minSuffix {
        continue;
      }
      out := out + [(k - 1, total)];
    }
    assert out == Listing(turnLens, minTokens, maxTokens, minPrefix, minSuffix, 1);
    turns := if stride > 1 then Every(out, stride) else out;
  }

  lemma ListingStep(lens: seq<nat>, lo: int, hi: int, minPrefix: int, minSuffix: int, k: nat, out: seq<(nat, nat)>)
    requires 1 <= k <= |lens|
    ensures var here := Listing(lens, lo, hi, minPrefix, minSuffix, k);
      var later := Listing(lens, lo, hi, minPrefix, minSuffix, k + 1);
      && (Total(lens, k) > hi ==> out + here == out)
      && (!Listed(lens, lo, hi, minPrefix, minSuffix, k) ==> here == later)
      && (Listed(lens, lo, hi, minPrefix, minSuffix, k) ==> out + here == (out + [(k, Total(lens, k))]) + later)
  {
    if Total(lens, k) > hi {
      NothingBeyond(lens, lo, hi, minPrefix, minSuffix, k);
    }
  }

  /** The first listed turn is the least turn at or after `k` that is to be listed. */
  lemma {:induction false} FirstListed(lens: seq<nat>, lo: int, hi: int, minPrefix: int, minSuffix: int,
                                       k: nat, first: nat)
    requires k <= first <= |lens|
    requires Listed(lens, lo, hi, minPrefix, minSuffix, first)
    requires forall j :: k <= j < first ==> !Listed(lens, lo, hi, minPrefix, minSuffix, j)
    ensures var l := Listing(lens, lo, hi, minPrefix, minSuffix, k); l != [] && l[0] == (first, Total(lens, first))
    decreases first - k
  {
    if k < first {
      FirstListed(lens, lo, hi, minPrefix, minSuffix, k + 1, first);
    }
  }

  lemma {:induction false} ListedTurns(lens: seq<nat>, lo: int, hi: int, minPrefix: int, minSuffix: int, k: nat)
    requires k <= |lens| + 1
    ensures var l := Listing(lens, lo, hi, minPrefix, minSuffix, k);
      l != [] ==> k <= l[0].0 <= |lens| && Listed(lens, lo, hi, minPrefix, minSuffix, l[0].0)
    decreases |lens| + 1 - k
  {
    if k <= |lens| {
      ListedTurns(lens, lo, hi, minPrefix, minSuffix, k + 1);
    }
  }

  /** Both walks agree. With the threshold as lower bound, the same limits, and an upper
      bound that the threshold turn does not exceed, the training split succeeds at the
      turn `k` where the threshold is first reached if and only if `k` heads the list. */
  lemma WalksAgree<S>(t: Trajectory<S>, tokens: seq<S> -> nat, threshold: int, hi: int,
                      minPrefix: int, minSuffix: int, k: nat)
    requires FirstCrossing(TurnLens(t.steps, tokens), threshold, 1) == Some(k)
    requires hi >= Total(TurnLens(t.steps, tokens), k)
    ensures var lens := TurnLens(t.steps, tokens);
      var list := Listing(lens, threshold, hi, minPrefix, minSuffix, 1);
      SplitAt(t, tokens, Some(k), minPrefix, minSuffix, 0).Some?
      <==> list != [] && list[0] == (k, Total(lens, k))
  {
    var lens := TurnLens(t.steps, tokens);
    ListedTurns(lens, threshold, hi, minPrefix, minSuffix, 1);
    if WithinLimits(lens, k, minPrefix, minSuffix) {
      FirstListed(lens, threshold, hi, minPrefix, minSuffix, 1, k);
    }
  }

  /** If the threshold is never reached, the list is empty as well. */
  lemma NoCrossingNoList(lens: seq<nat>, threshold: int, hi: int, minPrefix: int, minSuffix: int)
    requires FirstCrossing(lens, threshold, 1).None?
    ensures Listing(lens, threshold, hi, minPrefix, minSuffix, 1) == []
  {
    ListedTurns(lens, threshold, hi, minPrefix, minSuffix, 1);
  }
}

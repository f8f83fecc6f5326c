/** Cutting a trajectory into chunks at its assistant messages, and the partial
    trajectories from which branches are generated. */
module Branches {
  import opened Optional
  import opened History
  import opened Seqs

  // ---------------------------------------------------------------- chunks

  predicate NoAssistant(msgs: Messages) {
    forall i :: 0 <= i < |msgs| ==> !msgs[i].role.Assistant?
  }

  /** Up to and including the first assistant message, or everything. */
  function LeadLength(msgs: Messages): (n: nat)
    ensures n <= |msgs| && (msgs != [] ==> n > 0)
  {
    if msgs == [] then 0 else if msgs[0].role.Assistant? then 1 else 1 + LeadLength(msgs[1..])
  }

  function Chunks(msgs: Messages): seq<Messages>
    decreases |msgs|
  {
    if msgs == [] then [] else [msgs[..LeadLength(msgs)]] + Chunks(msgs[LeadLength(msgs)..])
  }

  lemma {:induction false} LeadOf(current: Messages, rest: Messages)
    requires NoAssistant(current)
    ensures LeadLength(current + rest) == |current| + LeadLength(rest)
  {
    if current == [] {
      assert current + rest == rest;
    } else {
      assert (current + rest)[1..] == current[1..] + rest;
      LeadOf(current[1..], rest);
    }
  }

  /** A chunk that ends in its only assistant message, split off. */
  lemma SplitOff(current: Messages, m: Message, rest: Messages)
    requires NoAssistant(current) && m.role.Assistant?
    ensures Chunks(current + [m] + rest) == [current + [m]] + Chunks(rest)
  {
    var all := current + [m] + rest;
    assert all == current + ([m] + rest);
    LeadOf(current, [m] + rest);
    var n := |current| + 1;
    assert all[..n] == current + [m];
    assert all[n..] == rest;
  }

  lemma OneChunk(current: Messages)
    requires NoAssistant(current) && current != []
    ensures Chunks(current) == [current]
  {
    LeadOf(current, []);
    assert current + [] == current;
    assert current[..|current|] == current && current[|current|..] == [];
  }

  /** `chunk_trajectory_by_assistant`. */
  method ChunkTrajectoryByAssistant(trajectory: Messages) returns (chunks: seq<Messages>)
    ensures chunks == Chunks(trajectory)
  {
    chunks := [];
    var currentChunk: Messages := [];
    var i := 0;
    assert [] + trajectory[0..] == trajectory;
    while i < |trajectory|
      invariant 0 <= i <= |trajectory|
      invariant NoAssistant(currentChunk)
      invariant Pending(trajectory, chunks, currentChunk, trajectory[i..])
    {
      var message := trajectory[i];
      NextMessage(trajectory, chunks, currentChunk, i);
      currentChunk := currentChunk + [message];
      if message.role.Assistant? {
        chunks := chunks + [currentChunk];
        currentChunk := [];
      }
      i := i + 1;
    }
    assert currentChunk + trajectory[i..] == currentChunk;
    if currentChunk != [] {
      OneChunk(currentChunk);
      chunks := chunks + [currentChunk];
    }
  }

  /** The finished chunks, and those of the current one with all that is left. */
  ghost predicate Pending(whole: Messages, chunks: seq<Messages>, current: Messages, left: Messages) {
    chunks + Chunks(current + left) == Chunks(whole)
  }

  lemma NextMessage(whole: Messages, chunks: seq<Messages>, current: Messages, i: nat)
    requires i < |whole| && NoAssistant(current) && Pending(whole, chunks, current, whole[i..])
    ensures var longer := current + [whole[i]];
      if whole[i].role.Assistant? then Pending(whole, chunks + [longer], [], whole[i + 1..])
      else Pending(whole, chunks, longer, whole[i + 1..])
  {
    assert current + whole[i..] == current + [whole[i]] + whole[i + 1..];
    if whole[i].role.Assistant? {
      SplitOff(current, whole[i], whole[i + 1..]);
      assert [] + whole[i + 1..] == whole[i + 1..];
    }
  }

  function Flatten(chunks: seq<Messages>): Messages {
    if chunks == [] then [] else chunks[0] + Flatten(chunks[1..])
  }

  lemma {:induction false} FlattenConcat(a: seq<Messages>, b: seq<Messages>)
    ensures Flatten(a + b) == Flatten(a) + Flatten(b)
  {
    if a == [] {
      assert a + b == b;
    } else {
      assert (a + b)[1..] == a[1..] + b;
      FlattenConcat(a[1..], b);
    }
  }

  lemma FlattenOne(first: Messages, rest: seq<Messages>)
    ensures Flatten([first] + rest) == first + Flatten(rest)
  {
    ConsRest(first, rest);
  }

  predicate EndsInOnlyAssistant(chunk: Messages) {
    chunk != [] && chunk[|chunk| - 1].role.Assistant? && NoAssistant(chunk[..|chunk| - 1])
  }

  lemma {:induction false} LeadShape(msgs: Messages)
    requires msgs != []
    ensures var lead := msgs[..LeadLength(msgs)];
      EndsInOnlyAssistant(lead) || (NoAssistant(lead) && LeadLength(msgs) == |msgs|)
  {
    if !msgs[0].role.Assistant? && |msgs| > 1 {
      LeadShape(msgs[1..]);
      var n := LeadLength(msgs[1..]);
      assert msgs[..n + 1] == [msgs[0]] + msgs[1..][..n];
      assert n > 0 ==> msgs[..n + 1][..n] == [msgs[0]] + msgs[1..][..n][..n - 1];
    }
  }

  /** The chunks make up the trajectory, and each of them but possibly the last ends in
      its only assistant message; a last one that does not has none at all. */
  lemma {:induction false} ChunksPartition(msgs: Messages)
    ensures Flatten(Chunks(msgs)) == msgs
    ensures forall i :: 0 <= i < |Chunks(msgs)| ==>
      EndsInOnlyAssistant(Chunks(msgs)[i])
      || (i == |Chunks(msgs)| - 1 && Chunks(msgs)[i] != [] && NoAssistant(Chunks(msgs)[i]))
    decreases |msgs|
  {
    if msgs != [] {
      var n := LeadLength(msgs);
      LeadShape(msgs);
      ChunksPartition(msgs[n..]);
      assert Chunks(msgs)[1..] == Chunks(msgs[n..]);
      Cut(msgs, n);
    }
  }

  // ---------------------------------------------------------------- prefixes at assistants

  function AssistantCount(msgs: Messages): nat {
    if msgs == [] then 0 else (if msgs[0].role.Assistant? then 1 else 0) + AssistantCount(msgs[1..])
  }

  /** Position `p` holds assistant message number `i`, counted from 0. */
  predicate IsAssistantAt(msgs: Messages, i: nat, p: nat) {
    p < |msgs| && msgs[p].role.Assistant? && AssistantCount(msgs[..p]) == i
  }

  lemma {:induction false} CountConcat(a: Messages, b: Messages)
    ensures AssistantCount(a + b) == AssistantCount(a) + AssistantCount(b)
  {
    if a == [] {
      assert a + b == b;
    } else {
      assert (a + b)[1..] == a[1..] + b;
      CountConcat(a[1..], b);
    }
  }

  lemma {:induction false} CountNone(msgs: Messages)
    requires NoAssistant(msgs)
    ensures AssistantCount(msgs) == 0
  {
    if msgs != [] {
      CountNone(msgs[1..]);
    }
  }

  /** The first `i + 1` chunks, if chunk `i` ends in an assistant message, are the
      trajectory up to and including its assistant message number `i`. */
  lemma {:induction false} ChunkPrefix(msgs: Messages, i: nat) returns (p: nat)
    requires i < |Chunks(msgs)| && EndsInOnlyAssistant(Chunks(msgs)[i])
    ensures IsAssistantAt(msgs, i, p)
    ensures Flatten(Chunks(msgs)[..i + 1]) == msgs[..p + 1]
    decreases |msgs|
  {
    if i == 0 {
      p := LeadLength(msgs) - 1;
      FirstChunk(msgs);
    } else {
      var rest := msgs[LeadLength(msgs)..];
      assert Chunks(msgs)[1..] == Chunks(rest);
      var q := ChunkPrefix(rest, i - 1);
      p := LeadLength(msgs) + q;
      LaterChunk(msgs, i, q);
    }
  }

  lemma FirstChunk(msgs: Messages)
    requires msgs != [] && EndsInOnlyAssistant(Chunks(msgs)[0])
    ensures IsAssistantAt(msgs, 0, LeadLength(msgs) - 1)
    ensures Flatten(Chunks(msgs)[..1]) == msgs[..LeadLength(msgs)]
  {
    var n := LeadLength(msgs);
    var lead := msgs[..n];
    assert Chunks(msgs)[..1] == [lead];
    assert Flatten([lead]) == lead + Flatten([lead][1..]);
    assert lead[..n - 1] == msgs[..n - 1];
    CountNone(msgs[..n - 1]);
  }

  lemma LaterChunk(msgs: Messages, i: nat, q: nat)
    requires 0 < i < |Chunks(msgs)|
    requires IsAssistantAt(msgs[LeadLength(msgs)..], i - 1, q)
    requires var rest := msgs[LeadLength(msgs)..]; Flatten(Chunks(rest)[..i]) == rest[..q + 1]
    ensures IsAssistantAt(msgs, i, LeadLength(msgs) + q)
    ensures Flatten(Chunks(msgs)[..i + 1]) == msgs[..LeadLength(msgs) + q + 1]
  {
    hide Flatten, AssistantCount;
    var n := LeadLength(msgs);
    LaterAssistant(msgs, i, q);
    LaterChunks(msgs, i);
    PrefixBeyond(msgs, n, q + 1);
    FlattenOne(msgs[..n], Chunks(msgs[n..])[..i]);
  }

  lemma LaterChunks(msgs: Messages, i: nat)
    requires i < |Chunks(msgs)|
    ensures var n := LeadLength(msgs);
      i <= |Chunks(msgs[n..])| && Chunks(msgs)[..i + 1] == [msgs[..n]] + Chunks(msgs[n..])[..i]
  {
    var n := LeadLength(msgs);
    var lead, rest := msgs[..n], msgs[n..];
    assert Chunks(msgs) == [lead] + Chunks(rest);
    PrefixBeyond([lead] + Chunks(rest), 1, i);
    Parts([lead], Chunks(rest));
  }

  lemma LaterAssistant(msgs: Messages, i: nat, q: nat)
    requires 0 < i < |Chunks(msgs)|
    requires IsAssistantAt(msgs[LeadLength(msgs)..], i - 1, q)
    ensures IsAssistantAt(msgs, i, LeadLength(msgs) + q)
  {
    hide Chunks, AssistantCount;
    var n := LeadLength(msgs);
    LeadCount(msgs, i);
    PrefixBeyond(msgs, n, q);
    CountConcat(msgs[..n], msgs[n..][..q]);
  }

  lemma LeadCount(msgs: Messages, i: nat)
    requires 0 < i < |Chunks(msgs)|
    ensures AssistantCount(msgs[..LeadLength(msgs)]) == 1
  {
    var n := LeadLength(msgs);
    LeadShape(msgs);
    var lead := msgs[..n];
    assert lead == lead[..n - 1] + [lead[n - 1]];
    CountNone(lead[..n - 1]);
    CountConcat(lead[..n - 1], [lead[n - 1]]);
  }

  // ---------------------------------------------------------------- branch points

  function DropLast(msgs: Messages): Messages {
    if msgs == [] then [] else msgs[..|msgs| - 1]
  }

  /** `get_before_traj_for_step`. */
  function BeforeTraj(messages: Messages, step: nat): Option<Messages> {
    var chunks := Chunks(messages);
    if step >= |chunks| then None else Some(DropLast(Flatten(chunks[..step + 1])))
  }

  datatype Uid = BeforeInit(base: string, step: nat) | AfterStep(base: string, step: nat, rollout: nat)

  datatype Partial = Partial(uid: Uid, trajectory: Messages, step: nat)

  predicate Eligible(i: nat, chunks: nat, sampleLimit: Option<int>) {
    5 <= i < (if sampleLimit.Some? then sampleLimit.value - 5 else chunks - 5)
  }

  function AfterPartials(base: string, i: nat, trajectory: Messages, n: nat): seq<Partial> {
    if n == 0 then []
    else AfterPartials(base, i, trajectory, n - 1) + [Partial(AfterStep(base, i, n - 1), trajectory, i + 1)]
  }

  /** The partial trajectories at chunk `i`, where `before` is all up to its end. */
  function PartialsAt(chunks: seq<Messages>, base: string, rollouts: nat, upTo: Messages, i: nat): seq<Partial>
    requires i < |chunks|
  {
    [Partial(BeforeInit(base, i), DropLast(upTo), i)]
    + if i + 1 < |chunks| then AfterPartials(base, i, upTo + DropLast(chunks[i + 1]), rollouts) else []
  }

  /** All partial trajectories from chunk `i` on. */
  function PartialsFrom(chunks: seq<Messages>, base: string, rollouts: nat, points: set<nat>, i: nat): seq<Partial>
    requires i <= |chunks|
    decreases |chunks| - i
  {
    if i == |chunks| then []
    else
      (if i in points then PartialsAt(chunks, base, rollouts, Flatten(chunks[..i + 1]), i) else [])
      + PartialsFrom(chunks, base, rollouts, points, i + 1)
  }

  /** The three lists that are returned, in step with each other. */
  predicate Aligned(uids: seq<Uid>, trajectories: seq<Messages>, steps: seq<nat>, all: seq<Partial>) {
    && |uids| == |trajectories| == |steps| == |all|
    && forall k :: 0 <= k < |all| ==> all[k] == Partial(uids[k], trajectories[k], steps[k])
  }

  lemma AlignedConcat(u: seq<Uid>, t: seq<Messages>, s: seq<nat>, all: seq<Partial>,
                      u': seq<Uid>, t': seq<Messages>, s': seq<nat>, all': seq<Partial>)
    requires Aligned(u, t, s, all) && Aligned(u', t', s', all')
    ensures Aligned(u + u', t + t', s + s', all + all')
  {
  }

  /** The eligible indices from `c` on, in order. */
  function EligibleFrom(chunks: nat, sampleLimit: Option<int>, c: nat): seq<nat>
    requires c <= chunks
    decreases chunks - c
  {
    if c == chunks then []
    else (if Eligible(c, chunks, sampleLimit) then [c] else []) + EligibleFrom(chunks, sampleLimit, c + 1)
  }

  method EligibleIndices(chunks: nat, sampleLimit: Option<int>) returns (indices: seq<nat>)
    ensures indices == EligibleFrom(chunks, sampleLimit, 0)
  {
    indices := [];
    var c := 0;
    while c < chunks
      invariant 0 <= c <= chunks
      invariant indices + EligibleFrom(chunks, sampleLimit, c) == EligibleFrom(chunks, sampleLimit, 0)
    {
      Assoc(indices, if Eligible(c, chunks, sampleLimit) then [c] else [], EligibleFrom(chunks, sampleLimit, c + 1));
      Whole(indices);
      if Eligible(c, chunks, sampleLimit) {
        indices := indices + [c];
      }
      c := c + 1;
    }
    Whole(indices);
  }

  lemma {:induction false} EligibleIndex(chunks: nat, sampleLimit: Option<int>, c: nat, i: nat)
    requires c <= chunks
    ensures i in EligibleFrom(chunks, sampleLimit, c) <==> c <= i < chunks && Eligible(i, chunks, sampleLimit)
    decreases chunks - c
  {
    if c < chunks {
      EligibleIndex(chunks, sampleLimit, c + 1, i);
    }
  }

  /** The branch points: all eligible indices, or a sample of them if there are more than
      `maxBranchPoints`. */
  function BranchPoints(chunks: nat, sampleLimit: Option<int>, maxBranchPoints: Option<nat>,
                        sample: (seq<nat>, nat) -> set<nat>): set<nat>
  {
    var eligible := EligibleFrom(chunks, sampleLimit, 0);
    if maxBranchPoints.Some? && |eligible| > maxBranchPoints.value then sample(eligible, maxBranchPoints.value)
    else set i | i in eligible
  }

  /** What the loop appends at one branch point. */
  method BranchPoint(chunks: seq<Messages>, base: string, rollouts: nat, currentTraj: Messages, i: nat)
    returns (uids: seq<Uid>, trajectories: seq<Messages>, steps: seq<nat>)
    requires i < |chunks|
    ensures Aligned(uids, trajectories, steps, PartialsAt(chunks, base, rollouts, currentTraj, i))
  {
    uids, trajectories, steps := [BeforeInit(base, i)], [DropLast(currentTraj)], [i];
    ghost var first := [Partial(BeforeInit(base, i), DropLast(currentTraj), i)];
    assert first + [] == first;
    if i + 1 < |chunks| {
      var afterTraj := currentTraj + DropLast(chunks[i + 1]);
      var n := 0;
      while n < rollouts
        invariant 0 <= n <= rollouts
        invariant Aligned(uids, trajectories, steps, first + AfterPartials(base, i, afterTraj, n))
      {
        uids := uids + [AfterStep(base, i, n)];
        trajectories := trajectories + [afterTraj];
        steps := steps + [i + 1];
        n := n + 1;
      }
    }
  }

  /** `create_partial_trajectories_from_messages`. */
  method CreatePartialTrajectories(messages: Messages, uid: string, nRollouts: nat, maxBranchPoints: Option<nat>,
                                   sampleLimit: Option<int>, sample: (seq<nat>, nat) -> set<nat>)
    returns (uids: seq<Uid>, trajectories: seq<Messages>, steps: seq<nat>)
    ensures var points := BranchPoints(|Chunks(messages)|, sampleLimit, maxBranchPoints, sample);
      Aligned(uids, trajectories, steps, PartialsFrom(Chunks(messages), uid, nRollouts, points, 0))
  {
    var chunked := ChunkTrajectoryByAssistant(messages);
    var eligibleIndices := EligibleIndices(|chunked|, sampleLimit);
    var eligibleSet := set i | i in eligibleIndices;
    if maxBranchPoints.Some? && |eligibleIndices| > maxBranchPoints.value {
      eligibleSet := sample(eligibleIndices, maxBranchPoints.value);
    }
    uids, trajectories, steps := Assemble(chunked, uid, nRollouts, eligibleSet);
  }

  /** The loop over the chunks. */
  method Assemble(chunks: seq<Messages>, base: string, rollouts: nat, points: set<nat>)
    returns (uids: seq<Uid>, trajectories: seq<Messages>, steps: seq<nat>)
    ensures Aligned(uids, trajectories, steps, PartialsFrom(chunks, base, rollouts, points, 0))
  {
    uids, trajectories, steps := [], [], [];
    ghost var done: seq<Partial> := [];
    var currentTraj: Messages := [];
    var i := 0;
    Whole(PartialsFrom(chunks, base, rollouts, points, 0));
    while i < |chunks|
      invariant 0 <= i <= |chunks|
      invariant currentTraj == Flatten(chunks[..i])
      invariant Aligned(uids, trajectories, steps, done)
      invariant Remaining(chunks, base, rollouts, points, done, i)
    {
      NextChunk(chunks, i);
      RemainingStep(chunks, base, rollouts, points, done, i);
      currentTraj := currentTraj + chunks[i];
      if i in points {
        var u, t, s := BranchPoint(chunks, base, rollouts, currentTraj, i);
        ghost var here := PartialsAt(chunks, base, rollouts, currentTraj, i);
        AlignedConcat(uids, trajectories, steps, done, u, t, s, here);
        uids, trajectories, steps, done := uids + u, trajectories + t, steps + s, done + here;
      }
      i := i + 1;
    }
    Whole(done);
  }

  /** What is done so far and what is left make up the whole result. */
  ghost predicate Remaining(chunks: seq<Messages>, base: string, rollouts: nat, points: set<nat>,
                            done: seq<Partial>, i: nat)
    requires i <= |chunks|
  {
    done + PartialsFrom(chunks, base, rollouts, points, i) == PartialsFrom(chunks, base, rollouts, points, 0)
  }

  lemma RemainingStep(chunks: seq<Messages>, base: string, rollouts: nat, points: set<nat>, done: seq<Partial>, i: nat)
    requires i < |chunks| && Remaining(chunks, base, rollouts, points, done, i)
    ensures var here := PartialsAt(chunks, base, rollouts, Flatten(chunks[..i + 1]), i);
      Remaining(chunks, base, rollouts, points, if i in points then done + here else done, i + 1)
  {
    var here := PartialsAt(chunks, base, rollouts, Flatten(chunks[..i + 1]), i);
    var later := PartialsFrom(chunks, base, rollouts, points, i + 1);
    Assoc(done, here, later);
    Whole(later);
  }

  lemma NextChunk(chunks: seq<Messages>, i: nat)
    requires i < |chunks|
    ensures Flatten(chunks[..i + 1]) == Flatten(chunks[..i]) + chunks[i]
  {
    assert chunks[..i + 1] == chunks[..i] + [chunks[i]];
    FlattenConcat(chunks[..i], [chunks[i]]);
    assert Flatten([chunks[i]]) == chunks[i] + Flatten([chunks[i]][1..]);
  }

  /** What a partial trajectory is, without chunks: the messages before the assistant
      message that is to be taken again, or before the one after it. */
  ghost predicate CutsAtAssistant(messages: Messages, base: string, rollouts: nat, p: Partial) {
    match p.uid
    case BeforeInit(b, i) =>
      && b == base && p.step == i
      && BeforeTraj(messages, i) == Some(p.trajectory)
      && exists at: nat :: IsAssistantAt(messages, i, at) && p.trajectory == messages[..at]
    case AfterStep(b, i, n) =>
      && b == base && p.step == i + 1 && n < rollouts
      && exists at: nat :: IsAssistantAt(messages, i + 1, at) && p.trajectory == messages[..at]
  }

  lemma {:induction false} AfterPartialsAre(base: string, i: nat, trajectory: Messages, n: nat)
    ensures forall p :: p in AfterPartials(base, i, trajectory, n) ==>
      p.uid.AfterStep? && p.uid.base == base && p.uid.step == i && p.uid.rollout < n
      && p.trajectory == trajectory && p.step == i + 1
  {
    if n > 0 {
      AfterPartialsAre(base, i, trajectory, n - 1);
    }
  }

  predicate EndsInAssistant(msgs: Messages) {
    msgs != [] && msgs[|msgs| - 1].role.Assistant?
  }

  /** The last chunk ends in an assistant message exactly when the trajectory does, and
      otherwise is the one chunk without an assistant message. */
  lemma {:induction false} LastChunk(msgs: Messages)
    requires msgs != []
    ensures Chunks(msgs) != []
    ensures EndsInOnlyAssistant(Chunks(msgs)[|Chunks(msgs)| - 1]) <==> EndsInAssistant(msgs)
    ensures AssistantCount(msgs) == |Chunks(msgs)| - if EndsInAssistant(msgs) then 0 else 1
    decreases |msgs|
  {
    hide AssistantCount, EndsInOnlyAssistant, LeadLength;
    var n := LeadLength(msgs);
    if msgs[n..] == [] {
      LoneChunk(msgs);
    } else {
      LastChunk(msgs[n..]);
      LeadOnly(msgs);
      Cut(msgs, n);
      CountConcat(msgs[..n], msgs[n..]);
    }
  }

  /** The first of several chunks, and the rest of them. */
  lemma LeadOnly(msgs: Messages)
    requires msgs != [] && msgs[LeadLength(msgs)..] != []
    ensures var lead, rest := msgs[..LeadLength(msgs)], msgs[LeadLength(msgs)..];
      Chunks(msgs) == [lead] + Chunks(rest) && Chunks(rest) != [] && AssistantCount(lead) == 1
  {
    hide AssistantCount, EndsInOnlyAssistant, LeadLength;
    LeadCount(msgs, 1);
  }

  lemma LoneChunk(msgs: Messages)
    requires msgs != [] && msgs[LeadLength(msgs)..] == []
    ensures Chunks(msgs) == [msgs] && AssistantCount(msgs) == (if EndsInAssistant(msgs) then 1 else 0)
    ensures EndsInOnlyAssistant(msgs) <==> EndsInAssistant(msgs)
  {
    Whole(msgs);
    LeadShape(msgs);
    LoneChunkCount(msgs);
    assert Chunks([]) == [];
  }

  lemma CountOne(m: Message)
    ensures AssistantCount([m]) == if m.role.Assistant? then 1 else 0
  {
    assert [m][1..] == [];
  }

  lemma LoneChunkCount(msgs: Messages)
    requires EndsInOnlyAssistant(msgs) || NoAssistant(msgs)
    ensures AssistantCount(msgs) == if EndsInAssistant(msgs) then 1 else 0
  {
    hide AssistantCount;
    if EndsInAssistant(msgs) {
      var front, last := msgs[..|msgs| - 1], msgs[|msgs| - 1];
      assert msgs == front + [last];
      CountNone(front);
      CountOne(last);
      CountConcat(front, [last]);
    } else {
      CountNone(msgs);
    }
  }

  lemma AssistantIsCounted(msgs: Messages, i: nat, p: nat)
    requires IsAssistantAt(msgs, i, p)
    ensures AssistantCount(msgs) > i
  {
    Cut(msgs, p);
    CountConcat(msgs[..p], msgs[p..]);
  }

  /** A branch point that leaves an assistant message to be cut at: the one of its own
      chunk and, for the rollouts after it, that of the next chunk. */
  predicate GoodPoint(messages: Messages, rollouts: nat, k: nat) {
    k + (if rollouts > 0 then 2 else 1) < |Chunks(messages)| || EndsInAssistant(messages)
  }

  /** Chunk `k` ends in an assistant message, which is the trajectory's number `k`. */
  lemma ChunkHasAssistant(messages: Messages, k: nat)
    requires k < |Chunks(messages)|
    ensures EndsInOnlyAssistant(Chunks(messages)[k])
      <==> k + 1 < |Chunks(messages)| || EndsInAssistant(messages)
  {
    ChunksPartition(messages);
    LastChunk(messages);
  }

  lemma BeforeIsCut(messages: Messages, i: nat)
    requires i < |Chunks(messages)| && EndsInOnlyAssistant(Chunks(messages)[i])
    ensures exists at: nat ::
      IsAssistantAt(messages, i, at) && DropLast(Flatten(Chunks(messages)[..i + 1])) == messages[..at]
  {
    var at := ChunkPrefix(messages, i);
    assert DropLast(messages[..at + 1]) == messages[..at];
  }

  lemma AfterIsCut(messages: Messages, i: nat)
    requires i + 1 < |Chunks(messages)| && EndsInOnlyAssistant(Chunks(messages)[i + 1])
    ensures var chunks := Chunks(messages);
      exists at: nat :: IsAssistantAt(messages, i + 1, at)
        && Flatten(chunks[..i + 1]) + DropLast(chunks[i + 1]) == messages[..at]
  {
    var chunks := Chunks(messages);
    BeforeIsCut(messages, i + 1);
    NextChunk(chunks, i + 1);
    DropLastOfConcat(Flatten(chunks[..i + 1]), chunks[i + 1]);
  }

  lemma PartialsAtCut(messages: Messages, base: string, rollouts: nat, i: nat)
    requires i < |Chunks(messages)| && GoodPoint(messages, rollouts, i)
    ensures forall p | p in PartialsAt(Chunks(messages), base, rollouts, Flatten(Chunks(messages)[..i + 1]), i) ::
      CutsAtAssistant(messages, base, rollouts, p)
  {
    var chunks := Chunks(messages);
    var upTo := Flatten(chunks[..i + 1]);
    ChunkHasAssistant(messages, i);
    BeforeIsCut(messages, i);
    if i + 1 < |chunks| {
      AfterPartialsAre(base, i, upTo + DropLast(chunks[i + 1]), rollouts);
      if rollouts > 0 {
        ChunkHasAssistant(messages, i + 1);
        AfterIsCut(messages, i);
      }
    }
  }

  lemma DropLastOfConcat(a: Messages, b: Messages)
    requires b != []
    ensures DropLast(a + b) == a + DropLast(b)
  {
  }

  lemma {:induction false} PartialsCut(messages: Messages, base: string, rollouts: nat, points: set<nat>, i: nat)
    requires i <= |Chunks(messages)|
    requires forall k :: k in points ==> GoodPoint(messages, rollouts, k)
    ensures forall p | p in PartialsFrom(Chunks(messages), base, rollouts, points, i) ::
      CutsAtAssistant(messages, base, rollouts, p)
    decreases |Chunks(messages)| - i
  {
    if i < |Chunks(messages)| {
      PartialsCut(messages, base, rollouts, points, i + 1);
      var later := PartialsFrom(Chunks(messages), base, rollouts, points, i + 1);
      if i in points {
        PartialsAtCut(messages, base, rollouts, i);
        var here := PartialsAt(Chunks(messages), base, rollouts, Flatten(Chunks(messages)[..i + 1]), i);
        assert forall p :: p in here + later ==> p in here || p in later;
      } else {
        Whole(later);
      }
    }
  }

  /** At any other branch point a partial trajectory is no cut. */
  lemma PartialNotCut(messages: Messages, base: string, rollouts: nat, k: nat) returns (p: Partial)
    requires k < |Chunks(messages)| && !GoodPoint(messages, rollouts, k)
    ensures p in PartialsAt(Chunks(messages), base, rollouts, Flatten(Chunks(messages)[..k + 1]), k)
    ensures !CutsAtAssistant(messages, base, rollouts, p)
  {
    assert Chunks([]) == [];
    hide Flatten, Chunks, AssistantCount, AfterPartials, DropLast, BeforeTraj;
    var chunks := Chunks(messages);
    var upTo := Flatten(chunks[..k + 1]);
    var all := PartialsAt(chunks, base, rollouts, upTo, k);
    LastChunk(messages);
    var missing := |chunks| - 1;
    forall at: nat
      ensures !IsAssistantAt(messages, missing, at)
    {
      if IsAssistantAt(messages, missing, at) {
        AssistantIsCounted(messages, missing, at);
      }
    }
    if k == missing {
      p := all[0];
    } else {
      p := LastAfterPartial(chunks, base, rollouts, upTo, k);
    }
  }

  lemma LastAfterPartial(chunks: seq<Messages>, base: string, rollouts: nat, upTo: Messages, k: nat)
    returns (p: Partial)
    requires k + 1 < |chunks| && rollouts > 0
    ensures p in PartialsAt(chunks, base, rollouts, upTo, k) && p.uid == AfterStep(base, k, rollouts - 1)
  {
    var after := upTo + DropLast(chunks[k + 1]);
    p := Partial(AfterStep(base, k, rollouts - 1), after, k + 1);
    AfterPartialsCount(base, k, after, rollouts - 1);
    assert AfterPartials(base, k, after, rollouts)[rollouts - 1] == p;
    assert PartialsAt(chunks, base, rollouts, upTo, k)[rollouts] == p;
  }

  lemma {:induction false} AfterPartialsCount(base: string, i: nat, trajectory: Messages, n: nat)
    ensures |AfterPartials(base, i, trajectory, n)| == n
  {
    if n > 0 {
      AfterPartialsCount(base, i, trajectory, n - 1);
    }
  }

  lemma {:induction false} InPartialsFrom(chunks: seq<Messages>, base: string, rollouts: nat, points: set<nat>,
                                          i: nat, k: nat, p: Partial)
    requires i <= k < |chunks| && k in points
    requires p in PartialsAt(chunks, base, rollouts, Flatten(chunks[..k + 1]), k)
    ensures p in PartialsFrom(chunks, base, rollouts, points, i)
    decreases k - i
  {
    hide PartialsAt, Flatten;
    if i < k {
      InPartialsFrom(chunks, base, rollouts, points, i + 1, k, p);
    }
  }

  /** The branch points: with no more eligible chunks than asked for, all of those that have
      five chunks before them and at least five behind them, counted to the sample limit if
      there is one; of more, a sample of the asked size. */
  lemma PointsAre(chunks: nat, sampleLimit: Option<int>, maxBranchPoints: Option<nat>,
                  sample: (seq<nat>, nat) -> set<nat>, k: nat)
    requires forall indices, n, i :: i in sample(indices, n) ==> i in indices
    ensures var points := BranchPoints(chunks, sampleLimit, maxBranchPoints, sample);
      var end := if sampleLimit.Some? then sampleLimit.value else chunks;
      && (k in points ==> 5 <= k < chunks && k + 5 < end)
      && (maxBranchPoints.None? || |EligibleFrom(chunks, sampleLimit, 0)| <= maxBranchPoints.value ==>
           (k in points <==> 5 <= k < chunks && k + 5 < end))
      && (maxBranchPoints.Some? && |EligibleFrom(chunks, sampleLimit, 0)| > maxBranchPoints.value ==>
           points == sample(EligibleFrom(chunks, sampleLimit, 0), maxBranchPoints.value))
  {
    EligibleIndex(chunks, sampleLimit, 0, k);
  }

  /** The rollouts after a branch point: as many as asked for, numbered from 0, all from the
      same trajectory and the next chunk. */
  lemma {:induction false} RolloutsAre(base: string, i: nat, trajectory: Messages, rollouts: nat, n: nat)
    requires n < rollouts
    ensures |AfterPartials(base, i, trajectory, rollouts)| == rollouts
    ensures AfterPartials(base, i, trajectory, rollouts)[n] == Partial(AfterStep(base, i, n), trajectory, i + 1)
  {
    AfterPartialsCount(base, i, trajectory, rollouts);
    AfterPartialsCount(base, i, trajectory, rollouts - 1);
    if n < rollouts - 1 {
      RolloutsAre(base, i, trajectory, rollouts - 1, n);
    }
  }

  /** Whatever the sample limit and the sample of eligible indices: every partial trajectory
      that is created is the prefix of the messages that ends just before assistant message
      `i` (and equals what `get_before_traj_for_step` reconstructs), or just before number
      `i + 1`, exactly when every branch point has two more chunks behind it, or one when
      there are no rollouts, or the trajectory ends in an assistant message. */
  lemma PartialsCutExactly(messages: Messages, base: string, rollouts: nat, sampleLimit: Option<int>,
                           maxBranchPoints: Option<nat>, sample: (seq<nat>, nat) -> set<nat>)
    requires forall indices, n, i :: i in sample(indices, n) ==> i in indices
    ensures var points := BranchPoints(|Chunks(messages)|, sampleLimit, maxBranchPoints, sample);
      (forall p | p in PartialsFrom(Chunks(messages), base, rollouts, points, 0) ::
        CutsAtAssistant(messages, base, rollouts, p))
      <==> forall k :: k in points ==> GoodPoint(messages, rollouts, k)
  {
    var chunks := Chunks(messages);
    var points := BranchPoints(|chunks|, sampleLimit, maxBranchPoints, sample);
    if forall k :: k in points ==> GoodPoint(messages, rollouts, k) {
      PartialsCut(messages, base, rollouts, points, 0);
    } else {
      var k :| k in points && !GoodPoint(messages, rollouts, k);
      PointIsEligible(|chunks|, sampleLimit, maxBranchPoints, sample, k);
      var p := PartialNotCut(messages, base, rollouts, k);
      InPartialsFrom(chunks, base, rollouts, points, 0, k, p);
    }
  }

  lemma PointIsEligible(chunks: nat, sampleLimit: Option<int>, maxBranchPoints: Option<nat>,
                        sample: (seq<nat>, nat) -> set<nat>, k: nat)
    requires forall indices, n, i :: i in sample(indices, n) ==> i in indices
    requires k in BranchPoints(chunks, sampleLimit, maxBranchPoints, sample)
    ensures k < chunks && Eligible(k, chunks, sampleLimit)
  {
    assert k in EligibleFrom(chunks, sampleLimit, 0);
    EligibleIndex(chunks, sampleLimit, 0, k);
  }

  /** Without a sample limit every partial trajectory is such a cut. */
  lemma PartialsAreCuts(messages: Messages, base: string, rollouts: nat, maxBranchPoints: Option<nat>,
                        sample: (seq<nat>, nat) -> set<nat>)
    requires forall indices, n, i :: i in sample(indices, n) ==> i in indices
    ensures var points := BranchPoints(|Chunks(messages)|, None, maxBranchPoints, sample);
      forall p | p in PartialsFrom(Chunks(messages), base, rollouts, points, 0) ::
        CutsAtAssistant(messages, base, rollouts, p)
  {
    var points := BranchPoints(|Chunks(messages)|, None, maxBranchPoints, sample);
    forall k | k in points ensures GoodPoint(messages, rollouts, k) {
      PointIsEligible(|Chunks(messages)|, None, maxBranchPoints, sample, k);
    }
    PartialsCut(messages, base, rollouts, points, 0);
  }

  /** Six chunks, the last without an assistant message, and a sample limit of eleven: the
      one branch point is that chunk, and what is created there is no cut. */
  lemma LimitBreaksCuts(messages: Messages, base: string, rollouts: nat, sample: (seq<nat>, nat) -> set<nat>)
    requires forall indices, n, i :: i in sample(indices, n) ==> i in indices
    requires |messages| == 6 && forall i :: 0 <= i < 5 ==> messages[i].role.Assistant?
    requires messages[5].role.User?
    ensures BranchPoints(|Chunks(messages)|, Some(11), None, sample) == {5}
    ensures exists p | p in PartialsFrom(Chunks(messages), base, rollouts, {5}, 0) ::
      !CutsAtAssistant(messages, base, rollouts, p)
  {
    SixChunks(messages);
    var points := BranchPoints(6, Some(11), None, sample);
    forall k
      ensures k in points <==> k == 5
    {
      if k >= 0 {
        EligibleIndex(6, Some(11), 0, k);
      }
    }
    PartialsCutExactly(messages, base, rollouts, Some(11), None, sample);
    assert points == {5};
    assert !GoodPoint(messages, rollouts, 5);
  }

  lemma SixChunks(messages: Messages)
    requires |messages| == 6 && forall i :: 0 <= i < 5 ==> messages[i].role.Assistant?
    requires messages[5].role.User?
    ensures |Chunks(messages)| == 6
  {
    LastChunk(messages);
    AllAssistants(messages[..5]);
    Cut(messages, 5);
    assert messages[5..] == [messages[5]];
    CountConcat(messages[..5], [messages[5]]);
  }

  lemma {:induction false} AllAssistants(msgs: Messages)
    requires forall i :: 0 <= i < |msgs| ==> msgs[i].role.Assistant?
    ensures AssistantCount(msgs) == |msgs|
  {
    if msgs != [] {
      AllAssistants(msgs[1..]);
    }
  }
}

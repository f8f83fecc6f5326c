/** The prefix-affinity router: exact in-flight counts and sticky conversations. */
module Router {
  import opened Counts
  import opened Optional

  type Key = string
  type Rid = nat

  // ---------------------------------------------------------------- one backend is picked

  /** The lowest index of a least element. */
  function LeastLoaded(loads: seq<int>): (idx: nat)
    requires loads != []
    ensures idx < |loads|
    ensures forall j :: 0 <= j < |loads| ==> loads[idx] <= loads[j]
    ensures forall j :: 0 <= j < idx ==> loads[idx] < loads[j]
  {
    if |loads| == 1 then 0
    else
      var k := LeastLoaded(loads[1..]);
      assert forall j :: 1 <= j < |loads| ==> loads[j] == loads[1..][j - 1];
      if loads[0] <= loads[1..][k] then 0 else k + 1
  }

  datatype Table = Table(inflight: seq<int>, affinity: map<Key, nat>) {
    predicate Valid() {
      inflight != [] && forall key :: key in affinity ==> affinity[key] < |inflight|
    }

    predicate Pinned(key: Option<Key>) {
      key.Some? && key.value in affinity
    }

    function Choice(key: Option<Key>): (idx: nat)
      requires Valid()
      ensures idx < |inflight|
    {
      if Pinned(key) then affinity[key.value] else LeastLoaded(inflight)
    }

    function Acquired(key: Option<Key>): (t: Table)
      requires Valid()
      ensures t.Valid() && |t.inflight| == |inflight|
    {
      var idx := Choice(key);
      Table(inflight[idx := inflight[idx] + 1],
            if key.Some? && !Pinned(key) then affinity[key.value := idx] else affinity)
    }

    function Released(idx: nat): Table
      requires idx < |inflight|
    {
      Table(inflight[idx := inflight[idx] - 1], affinity)
    }
  }

  class RouterServer {
    const inflight: array<int>
    var affinity: map<Key, nat>

    function View(): Table
      reads this, inflight
    {
      Table(inflight[..], affinity)
    }

    constructor (backends: nat)
      requires backends > 0
      ensures fresh(inflight) && inflight.Length == backends
      ensures View() == Table(seq(backends, _ => 0), map[]) && View().Valid()
    {
      inflight := new int[backends](_ => 0);
      affinity := map[];
    }

    /** `pick_backend`, under the lock. */
    method PickBackend(key: Option<Key>) returns (idx: nat)
      requires View().Valid()
      modifies this`affinity, inflight
      ensures idx == old(View()).Choice(key)
      ensures View() == old(View()).Acquired(key)
    {
      ghost var loads := inflight[..];
      if key.Some? && key.value in affinity {
        idx := affinity[key.value];
      } else {
        idx := 0;
        var i := 1;
        while i < inflight.Length
          invariant 1 <= i <= inflight.Length && idx < i
          invariant forall j :: 0 <= j < i ==> inflight[idx] <= inflight[j]
          invariant forall j :: 0 <= j < idx ==> inflight[idx] < inflight[j]
        {
          if inflight[i] < inflight[idx] {
            idx := i;
          }
          i := i + 1;
        }
        assert inflight[..] == loads;
        LeastIsUnique(loads, idx);
        if key.Some? {
          affinity := affinity[key.value := idx];
        }
      }
      inflight[idx] := inflight[idx] + 1;
    }

    /** `release`, under the lock. */
    method Release(idx: nat)
      requires idx < inflight.Length
      modifies inflight
      ensures View() == old(View()).Released(idx)
    {
      inflight[idx] := inflight[idx] - 1;
    }
  }

  lemma LeastIsUnique(loads: seq<int>, idx: nat)
    requires loads != [] && idx < |loads|
    requires forall j :: 0 <= j < |loads| ==> loads[idx] <= loads[j]
    requires forall j :: 0 <= j < idx ==> loads[idx] < loads[j]
    ensures idx == LeastLoaded(loads)
  {
    var k := LeastLoaded(loads);
    assert loads[k] <= loads[idx] && loads[idx] <= loads[k];
  }

  // ---------------------------------------------------------------- requests and their slots

  /** How a forwarded answer ended: in full, by an exception of the backend, or because
      the handler or the generator was cancelled or closed. */
  datatype End = Completed | Failed | Interrupted

  /** A request, from the return of `pick_backend` on. A stream's generator exists before
      it is started; a response that is dropped then leaves it unstarted. */
  datatype Phase =
    | Rejected                       // before any backend was picked
    | Picked(idx: nat)
    | Posting(idx: nat)              // in the `try` of a plain request
    | Created(idx: nat)              // the handler has returned its stream
    | Streaming(idx: nat)            // in the `try` of a started generator
    | Abandoned(idx: nat)            // the response went away before the start
    | Finished(idx: nat, end: End)

  type Requests = map<Rid, Phase>

  datatype System = System(table: Table, requests: Requests)

  /** The lock is never waited for, since nothing is awaited while it is held, so picking
      and releasing are single steps. The `finally` clauses release on every way out. */
  datatype Step =
    | Reject(rid: Rid)
    | Acquire(rid: Rid, key: Option<Key>)
    | BeginPost(rid: Rid)
    | FinishPost(rid: Rid, end: End)
    | CreateStream(rid: Rid)
    | Start(rid: Rid)
    | FinishStream(rid: Rid, end: End)
    | Abandon(rid: Rid)

  predicate Enabled(s: System, step: Step) {
    match step
    case Reject(rid) => rid !in s.requests
    case Acquire(rid, _) => rid !in s.requests && s.table.Valid()
    case BeginPost(rid) => rid in s.requests && s.requests[rid].Picked?
    case FinishPost(rid, _) =>
      rid in s.requests && s.requests[rid].Posting? && s.requests[rid].idx < |s.table.inflight|
    case CreateStream(rid) => rid in s.requests && s.requests[rid].Picked?
    case Start(rid) => rid in s.requests && s.requests[rid].Created?
    case FinishStream(rid, _) =>
      rid in s.requests && s.requests[rid].Streaming? && s.requests[rid].idx < |s.table.inflight|
    case Abandon(rid) => rid in s.requests && s.requests[rid].Created?
  }

  function Do(s: System, step: Step): System
    requires Enabled(s, step)
  {
    match step
    case Reject(rid) => s.(requests := s.requests[rid := Rejected])
    case Acquire(rid, key) =>
      System(s.table.Acquired(key), s.requests[rid := Picked(s.table.Choice(key))])
    case BeginPost(rid) => s.(requests := s.requests[rid := Posting(s.requests[rid].idx)])
    case FinishPost(rid, end) =>
      System(s.table.Released(s.requests[rid].idx), s.requests[rid := Finished(s.requests[rid].idx, end)])
    case CreateStream(rid) => s.(requests := s.requests[rid := Created(s.requests[rid].idx)])
    case Start(rid) => s.(requests := s.requests[rid := Streaming(s.requests[rid].idx)])
    case FinishStream(rid, end) =>
      System(s.table.Released(s.requests[rid].idx), s.requests[rid := Finished(s.requests[rid].idx, end)])
    case Abandon(rid) => s.(requests := s.requests[rid := Abandoned(s.requests[rid].idx)])
  }

  /** The request holds a slot of some backend. */
  predicate Holds(phase: Phase) {
    !phase.Rejected? && !phase.Finished?
  }

  predicate HoldsOn(phase: Phase, i: nat) {
    Holds(phase) && phase.idx == i
  }

  /** The server is through with the request. */
  predicate Over(phase: Phase) {
    phase.Rejected? || phase.Finished? || phase.Abandoned?
  }

  function Holders(rs: Requests): set<Rid> {
    set rid | rid in rs && Holds(rs[rid])
  }

  /** The requests that hold backend `i`. */
  function On(rs: Requests, i: nat): set<Rid> {
    set rid | rid in rs && HoldsOn(rs[rid], i)
  }

  function Sum(loads: seq<int>): int {
    if loads == [] then 0 else loads[0] + Sum(loads[1..])
  }

  ghost predicate Exact(s: System) {
    && s.table.Valid()
    && (forall rid :: rid in s.requests && Holds(s.requests[rid]) ==> s.requests[rid].idx < |s.table.inflight|)
    && (forall i :: 0 <= i < |s.table.inflight| ==> s.table.inflight[i] == |On(s.requests, i)|)
    && Sum(s.table.inflight) == |Holders(s.requests)|
  }

  lemma {:induction false} SumUpdate(loads: seq<int>, i: nat, x: int)
    requires i < |loads|
    ensures Sum(loads[i := x]) == Sum(loads) - loads[i] + x
  {
    if i == 0 {
      assert loads[0 := x][1..] == loads[1..];
    } else {
      assert loads[i := x][1..] == loads[1..][i - 1 := x];
      SumUpdate(loads[1..], i - 1, x);
    }
  }

  lemma OnMoved(rs: Requests, rid: Rid, phase: Phase, i: nat)
    ensures |On(rs[rid := phase], i)|
         == |On(rs, i)| - One(rid in rs && HoldsOn(rs[rid], i)) + One(HoldsOn(phase, i))
  {
    var rest := On(rs, i) - {rid};
    assert On(rs[rid := phase], i) == if HoldsOn(phase, i) then rest + {rid} else rest;
    assert On(rs, i) == if rid in rs && HoldsOn(rs[rid], i) then rest + {rid} else rest;
  }

  lemma HoldersMoved(rs: Requests, rid: Rid, phase: Phase)
    ensures |Holders(rs[rid := phase])| == |Holders(rs)| - One(rid in rs && Holds(rs[rid])) + One(Holds(phase))
  {
    var rest := Holders(rs) - {rid};
    assert Holders(rs[rid := phase]) == if Holds(phase) then rest + {rid} else rest;
    assert Holders(rs) == if rid in rs && Holds(rs[rid]) then rest + {rid} else rest;
  }

  lemma AcquireKeepsExact(s: System, rid: Rid, key: Option<Key>)
    requires Exact(s) && rid !in s.requests
    ensures Exact(Do(s, Acquire(rid, key)))
  {
    var loads, idx := s.table.inflight, s.table.Choice(key);
    var rs' := s.requests[rid := Picked(idx)];
    SumUpdate(loads, idx, loads[idx] + 1);
    HoldersMoved(s.requests, rid, Picked(idx));
    forall i | 0 <= i < |loads|
      ensures loads[idx := loads[idx] + 1][i] == |On(rs', i)|
    {
      OnMoved(s.requests, rid, Picked(idx), i);
    }
  }

  lemma ReleaseKeepsExact(s: System, rid: Rid, end: End)
    requires Exact(s) && rid in s.requests && Holds(s.requests[rid])
    ensures s.requests[rid].idx < |s.table.inflight|
    ensures var idx := s.requests[rid].idx;
      Exact(System(s.table.Released(idx), s.requests[rid := Finished(idx, end)]))
  {
    var loads, idx := s.table.inflight, s.requests[rid].idx;
    var rs' := s.requests[rid := Finished(idx, end)];
    SumUpdate(loads, idx, loads[idx] - 1);
    HoldersMoved(s.requests, rid, Finished(idx, end));
    forall i | 0 <= i < |loads|
      ensures loads[idx := loads[idx] - 1][i] == |On(rs', i)|
    {
      OnMoved(s.requests, rid, Finished(idx, end), i);
    }
  }

  /** A move that neither takes nor gives back a slot. */
  lemma MoveKeepsExact(s: System, rid: Rid, phase: Phase)
    requires Exact(s)
    requires rid in s.requests ==> Holds(s.requests[rid]) && Holds(phase) && phase.idx == s.requests[rid].idx
    requires rid !in s.requests ==> phase.Rejected?
    ensures Exact(s.(requests := s.requests[rid := phase]))
  {
    HoldersMoved(s.requests, rid, phase);
    forall i | 0 <= i < |s.table.inflight|
      ensures |On(s.requests[rid := phase], i)| == |On(s.requests, i)|
    {
      OnMoved(s.requests, rid, phase, i);
    }
  }

  lemma StepKeepsExact(s: System, step: Step)
    requires Exact(s) && Enabled(s, step)
    ensures Exact(Do(s, step))
  {
    match step
    case Reject(rid) => MoveKeepsExact(s, rid, Rejected);
    case Acquire(rid, key) => AcquireKeepsExact(s, rid, key);
    case BeginPost(rid) => MoveKeepsExact(s, rid, Posting(s.requests[rid].idx));
    case FinishPost(rid, end) => ReleaseKeepsExact(s, rid, end);
    case CreateStream(rid) => MoveKeepsExact(s, rid, Created(s.requests[rid].idx));
    case Start(rid) => MoveKeepsExact(s, rid, Streaming(s.requests[rid].idx));
    case FinishStream(rid, end) => ReleaseKeepsExact(s, rid, end);
    case Abandon(rid) => MoveKeepsExact(s, rid, Abandoned(s.requests[rid].idx));
  }

  // ---------------------------------------------------------------- whole runs

  function Initial(backends: nat): System {
    System(Table(seq(backends, _ => 0), map[]), map[])
  }

  ghost predicate IsRun(backends: nat, states: seq<System>, steps: seq<Step>) {
    && |states| == |steps| + 1
    && backends > 0
    && states[0] == Initial(backends)
    && forall i :: 0 <= i < |steps| ==> Enabled(states[i], steps[i]) && states[i + 1] == Do(states[i], steps[i])
  }

  lemma {:induction false} NoLoad(loads: seq<int>)
    requires forall i :: 0 <= i < |loads| ==> loads[i] == 0
    ensures Sum(loads) == 0
  {
    if loads != [] {
      NoLoad(loads[1..]);
    }
  }

  /** Conservation. In every reachable state `inflight[i]` is the number of requests that
      hold backend `i`, hence never negative, and the counts sum to all that hold one. */
  lemma {:induction false} CountsAreExact(backends: nat, states: seq<System>, steps: seq<Step>, n: nat)
    requires IsRun(backends, states, steps) && n < |states|
    ensures Exact(states[n]) && |states[n].table.inflight| == backends
  {
    if n == 0 {
      NoLoad(states[0].table.inflight);
      assert forall i :: On(states[0].requests, i) == {};
      assert Holders(states[0].requests) == {};
    } else {
      CountsAreExact(backends, states, steps, n - 1);
      StepKeepsExact(states[n - 1], steps[n - 1]);
    }
  }

  // ---------------------------------------------------------------- one release each

  predicate Releases(step: Step, rid: Rid) {
    (step.FinishPost? || step.FinishStream?) && step.rid == rid
  }

  /** A request that is over never moves again. */
  lemma {:induction false} OverStaysOver(backends: nat, states: seq<System>, steps: seq<Step>, m: nat, n: nat, rid: Rid)
    requires IsRun(backends, states, steps) && m <= n < |states|
    requires rid in states[m].requests && Over(states[m].requests[rid])
    ensures rid in states[n].requests && states[n].requests[rid] == states[m].requests[rid]
    decreases n
  {
    if m < n {
      OverStaysOver(backends, states, steps, m, n - 1, rid);
    }
  }

  /** No request gives back a slot twice, on no interleaving and however it ends. */
  lemma ReleasedOnce(backends: nat, states: seq<System>, steps: seq<Step>, m: nat, n: nat, rid: Rid)
    requires IsRun(backends, states, steps) && m < n < |steps| && Releases(steps[m], rid)
    ensures !Releases(steps[n], rid)
  {
    assert states[m + 1].requests[rid].Finished?;
    OverStaysOver(backends, states, steps, m + 1, n, rid);
  }

  lemma {:induction false} SlotWasPicked(backends: nat, states: seq<System>, steps: seq<Step>, n: nat, rid: Rid)
    returns (k: nat)
    requires IsRun(backends, states, steps) && n < |states|
    requires rid in states[n].requests && Holds(states[n].requests[rid])
    ensures k < n && steps[k].Acquire? && steps[k].rid == rid && states[k].table.Valid()
    ensures states[n].requests[rid].idx == states[k].table.Choice(steps[k].key)
  {
    assert n > 0;
    if rid in states[n - 1].requests {
      k := SlotWasPicked(backends, states, steps, n - 1, rid);
    } else {
      k := n - 1;
    }
  }

  /** A request gives back the very slot that it was given. */
  lemma ReleasedWhatWasPicked(backends: nat, states: seq<System>, steps: seq<Step>, n: nat, rid: Rid)
    returns (k: nat)
    requires IsRun(backends, states, steps) && n < |steps| && Releases(steps[n], rid)
    ensures k < n && steps[k].Acquire? && steps[k].rid == rid && states[k].table.Valid()
    ensures var idx := states[k].table.Choice(steps[k].key);
      idx < |states[n].table.inflight| && states[n + 1].table == states[n].table.Released(idx)
  {
    k := SlotWasPicked(backends, states, steps, n, rid);
  }

  // ---------------------------------------------------------------- slots that stay taken

  /** One of the first `n` steps is `step`. */
  ghost predicate Took(steps: seq<Step>, n: nat, step: Step)
    requires n <= |steps|
  {
    exists k :: 0 <= k < n && steps[k] == step
  }

  lemma TookNext(steps: seq<Step>, n: nat, step: Step)
    requires n < |steps|
    ensures Took(steps, n + 1, step) <==> Took(steps, n, step) || steps[n] == step
  {
    if Took(steps, n, step) {
      var k :| 0 <= k < n && steps[k] == step;
      assert 0 <= k < n + 1;
    }
  }

  /** What the phase of a request tells of its stream. */
  predicate StreamPast(rs: Requests, rid: Rid, created: bool, started: bool) {
    if rid !in rs then !created && !started
    else
      match rs[rid]
      case Rejected => !created
      case Picked(_) => !created && !started
      case Posting(_) => !created
      case Created(_) => created && !started
      case Abandoned(_) => created && !started
      case Streaming(_) => started
      case Finished(_, _) => created ==> started
  }

  lemma StreamPastKept(s: System, step: Step, rid: Rid, created: bool, started: bool)
    requires Enabled(s, step) && StreamPast(s.requests, rid, created, started)
    ensures StreamPast(Do(s, step).requests, rid, created || step == CreateStream(rid), started || step == Start(rid))
  {
  }

  lemma {:induction false} RunTellsPast(backends: nat, states: seq<System>, steps: seq<Step>, n: nat, rid: Rid)
    requires IsRun(backends, states, steps) && n < |states|
    ensures StreamPast(states[n].requests, rid, Took(steps, n, CreateStream(rid)), Took(steps, n, Start(rid)))
  {
    if n > 0 {
      RunTellsPast(backends, states, steps, n - 1, rid);
      StreamPastKept(states[n - 1], steps[n - 1], rid,
        Took(steps, n - 1, CreateStream(rid)), Took(steps, n - 1, Start(rid)));
      TookNext(steps, n - 1, CreateStream(rid));
      TookNext(steps, n - 1, Start(rid));
    }
  }

  /** A request that is over still holds a slot exactly when it is a stream whose generator
      was never started. */
  lemma LostSlots(backends: nat, states: seq<System>, steps: seq<Step>, n: nat, rid: Rid)
    requires IsRun(backends, states, steps) && n < |states|
    requires rid in states[n].requests && Over(states[n].requests[rid])
    ensures Holds(states[n].requests[rid])
      <==> Took(steps, n, CreateStream(rid)) && !Took(steps, n, Start(rid))
  {
    RunTellsPast(backends, states, steps, n, rid);
  }

  /** The dropped streams on backend `i`. */
  function UnstartedOn(rs: Requests, i: nat): set<Rid> {
    set rid | rid in rs && rs[rid] == Abandoned(i)
  }

  /** When every request is over, what a count still shows are the unstarted streams. */
  lemma QuietCounts(backends: nat, states: seq<System>, steps: seq<Step>, n: nat, i: nat)
    requires IsRun(backends, states, steps) && n < |states| && i < backends
    requires forall rid :: rid in states[n].requests ==> Over(states[n].requests[rid])
    ensures i < |states[n].table.inflight|
    ensures states[n].table.inflight[i] == |UnstartedOn(states[n].requests, i)|
  {
    CountsAreExact(backends, states, steps, n);
    assert On(states[n].requests, i) == UnstartedOn(states[n].requests, i);
  }

  /** Lost slots add up. A stream that was dropped unstarted stays so, and each count is at
      least the number of all that were dropped on its backend so far. */
  lemma SlotIsLost(backends: nat, states: seq<System>, steps: seq<Step>, m: nat, n: nat, i: nat)
    requires IsRun(backends, states, steps) && m <= n < |states| && i < backends
    ensures UnstartedOn(states[m].requests, i) <= UnstartedOn(states[n].requests, i)
    ensures i < |states[n].table.inflight|
    ensures states[n].table.inflight[i] >= |UnstartedOn(states[n].requests, i)| >= |UnstartedOn(states[m].requests, i)|
  {
    forall rid | rid in UnstartedOn(states[m].requests, i)
      ensures rid in UnstartedOn(states[n].requests, i)
    {
      OverStaysOver(backends, states, steps, m, n, rid);
    }
    CountsAreExact(backends, states, steps, n);
    Subset(UnstartedOn(states[m].requests, i), UnstartedOn(states[n].requests, i));
    Subset(UnstartedOn(states[n].requests, i), On(states[n].requests, i));
  }

  /** A part of a finite set has no more elements. */
  lemma {:induction false} Subset(a: set<Rid>, b: set<Rid>)
    requires a <= b
    ensures |a| <= |b|
    decreases |a|
  {
    if x :| x in a {
      Subset(a - {x}, b - {x});
    }
  }

  /** A run that ends with every request over and a slot taken. */
  lemma LostSlotRun(backends: nat) returns (states: seq<System>, steps: seq<Step>)
    requires backends > 0
    ensures IsRun(backends, states, steps) && |steps| == 3
    ensures states[3].requests.Keys == {0} && Over(states[3].requests[0])
    ensures |states[3].table.inflight| == backends && states[3].table.inflight[0] == 1
  {
    var s0 := Initial(backends);
    var s1 := Do(s0, Acquire(0, None));
    var s2 := Do(s1, CreateStream(0));
    var s3 := Do(s2, Abandon(0));
    states, steps := [s0, s1, s2, s3], [Acquire(0, None), CreateStream(0), Abandon(0)];
  }

  // ---------------------------------------------------------------- stickiness

  /** Stickiness. Once a conversation is pinned it stays pinned to the same backend, and
      every later request of it is placed there. */
  lemma {:induction false} PinnedForever(backends: nat, states: seq<System>, steps: seq<Step>, m: nat, n: nat, key: Key)
    requires IsRun(backends, states, steps) && m <= n < |states|
    requires key in states[m].table.affinity
    ensures key in states[n].table.affinity && states[n].table.affinity[key] == states[m].table.affinity[key]
    ensures n < |steps| && steps[n].Acquire? && steps[n].key == Some(key)
      ==> states[n + 1].requests[steps[n].rid] == Picked(states[m].table.affinity[key])
    decreases n
  {
    if m < n {
      PinnedForever(backends, states, steps, m, n - 1, key);
    }
  }

  predicate AsksFor(step: Step, key: Key) {
    step.Acquire? && step.key == Some(key)
  }

  /** Only a request of a conversation pins it. */
  lemma {:induction false} PinnedByRequest(backends: nat, states: seq<System>, steps: seq<Step>, m: nat, key: Key)
    requires IsRun(backends, states, steps) && m < |states|
    requires forall k :: 0 <= k < m ==> !AsksFor(steps[k], key)
    ensures key !in states[m].table.affinity
  {
    if m > 0 {
      PinnedByRequest(backends, states, steps, m - 1, key);
    }
  }

  /** In every run the first request of a conversation goes to the least-loaded backend, and
      all its later requests go to that same one. */
  lemma FirstRequestPins(backends: nat, states: seq<System>, steps: seq<Step>, m: nat, n: nat, key: Key)
    requires IsRun(backends, states, steps) && m <= n < |steps|
    requires AsksFor(steps[m], key) && AsksFor(steps[n], key)
    requires forall k :: 0 <= k < m ==> !AsksFor(steps[k], key)
    ensures states[m].table.inflight != []
    ensures states[n + 1].requests[steps[n].rid] == Picked(LeastLoaded(states[m].table.inflight))
  {
    PinnedByRequest(backends, states, steps, m, key);
    assert states[m + 1] == Do(states[m], steps[m]);
    if m < n {
      PinnedForever(backends, states, steps, m + 1, n, key);
    }
  }

  // ---------------------------------------------------------------- placement

  lemma {:induction false} LeastTimesCount(loads: seq<int>, least: int)
    requires forall j :: 0 <= j < |loads| ==> least <= loads[j]
    ensures least * |loads| <= Sum(loads)
  {
    if loads != [] {
      LeastTimesCount(loads[1..], least);
      assert least * |loads| == least + least * (|loads| - 1);
    }
  }

  lemma AtMostQuotient(x: int, total: int, parts: nat)
    requires parts > 0 && x * parts <= total
    ensures x <= total / parts
  {
    var quotient := total / parts;
    assert total < (quotient + 1) * parts;
    if x > quotient {
      MoreParts(quotient + 1, x, parts);
    }
  }

  lemma MoreParts(a: int, b: int, parts: nat)
    requires a <= b
    ensures a * parts <= b * parts
  {
  }

  /** A request that is not pinned lands on a backend whose new load is at most one more
      than the rounded-down average of the slots held before it. */
  lemma FreshRequestIsBalanced(backends: nat, states: seq<System>, steps: seq<Step>, n: nat)
    requires IsRun(backends, states, steps) && n < |steps|
    requires steps[n].Acquire? && !states[n].table.Pinned(steps[n].key)
    ensures var idx := states[n].table.Choice(steps[n].key);
      && states[n + 1].requests[steps[n].rid] == Picked(idx)
      && states[n + 1].table.inflight[idx] <= |Holders(states[n].requests)| / backends + 1
  {
    CountsAreExact(backends, states, steps, n);
    var loads := states[n].table.inflight;
    var least := loads[LeastLoaded(loads)];
    LeastTimesCount(loads, least);
    AtMostQuotient(least, |Holders(states[n].requests)|, backends);
  }

  predicate Balanced(loads: seq<int>) {
    forall i, j :: 0 <= i < |loads| && 0 <= j < |loads| ==> loads[i] <= loads[j] + 1
  }

  /** From balanced loads, any number of unpinned arrivals without a release leaves the
      greatest and the least load at most one apart. */
  lemma {:induction false} ArrivalsStayBalanced(backends: nat, states: seq<System>, steps: seq<Step>, m: nat, n: nat)
    requires IsRun(backends, states, steps) && m <= n < |states|
    requires Balanced(states[m].table.inflight)
    requires forall k :: m <= k < n ==> !steps[k].FinishPost? && !steps[k].FinishStream?
    requires forall k :: m <= k < n && steps[k].Acquire? ==> !states[k].table.Pinned(steps[k].key)
    ensures Balanced(states[n].table.inflight)
    decreases n
  {
    if m < n {
      ArrivalsStayBalanced(backends, states, steps, m, n - 1);
      CountsAreExact(backends, states, steps, n - 1);
    }
  }
}

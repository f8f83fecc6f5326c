/** Finding the turn at which an agent's context would first be compacted. */
module Search {
  import opened Optional
  import opened History

  /** A turn before which the context has reached the trigger. */
  predicate Fires(msgs: Messages, nTokens: nat -> nat, trigger: int, t: nat)
    requires t < |msgs|
  {
    msgs[t].role.Assistant? && nTokens(t) >= trigger
  }

  /** The linear scan that the binary search replaced: one count per assistant turn. */
  function LinearScan(msgs: Messages, nTokens: nat -> nat, trigger: int, from: nat): (r: Option<nat>)
    requires from <= |msgs|
    ensures r.Some? ==> from <= r.value < |msgs| && Fires(msgs, nTokens, trigger, r.value)
    ensures r.Some? ==> forall t :: from <= t < r.value ==> !Fires(msgs, nTokens, trigger, t)
    ensures r.None? ==> forall t :: from <= t < |msgs| ==> !Fires(msgs, nTokens, trigger, t)
    decreases |msgs| - from
  {
    if from == |msgs| then None
    else if Fires(msgs, nTokens, trigger, from) then Some(from)
    else LinearScan(msgs, nTokens, trigger, from + 1)
  }

  /** The scan gives turn `t` exactly when that is an assistant message before which the
      context has reached the trigger, and no earlier assistant message is. */
  lemma ScanIs(msgs: Messages, nTokens: nat -> nat, trigger: int, t: nat)
    ensures LinearScan(msgs, nTokens, trigger, 0) == Some(t) <==>
      && t < |msgs| && msgs[t].role.Assistant? && nTokens(t) >= trigger
      && forall p :: 0 <= p < t && msgs[p].role.Assistant? ==> nTokens(p) < trigger
  {
    var r := LinearScan(msgs, nTokens, trigger, 0);
    if t < |msgs| && Fires(msgs, nTokens, trigger, t) && r.Some? && r.value < t {
      assert Fires(msgs, nTokens, trigger, r.value);
    }
    assert forall p :: 0 <= p < |msgs| ==> (Fires(msgs, nTokens, trigger, p)
                                            <==> msgs[p].role.Assistant? && nTokens(p) >= trigger);
  }

  /** Longer prefixes do not have fewer tokens. */
  predicate Monotone(msgs: Messages, nTokens: nat -> nat) {
    forall a, b :: 0 <= a <= b <= |msgs| ==> nTokens(a) <= nTokens(b)
  }

  /** `find_compaction_turn`. */
  method FindCompactionTurn(msgs: Messages, nTokens: nat -> nat, trigger: int) returns (turn: Option<nat>)
    requires Monotone(msgs, nTokens)
    ensures turn == LinearScan(msgs, nTokens, trigger, 0)
  {
    if nTokens(|msgs|) < trigger {
      return None;
    }
    var lo, hi := 0, |msgs|;
    while lo < hi
      invariant 0 <= lo <= hi <= |msgs|
      invariant forall p :: 0 <= p < lo ==> nTokens(p) < trigger
      invariant nTokens(hi) >= trigger
    {
      var mid := (lo + hi) / 2;
      if nTokens(mid) >= trigger {
        hi := mid;
      } else {
        lo := mid + 1;
      }
    }
    var t := lo;
    while t < |msgs|
      invariant lo <= t <= |msgs|
      invariant forall p :: 0 <= p < t ==> !Fires(msgs, nTokens, trigger, p)
    {
      if msgs[t].role.Assistant? {
        assert nTokens(lo) <= nTokens(t);
        assert Fires(msgs, nTokens, trigger, t);
        return Some(t);
      }
      t := t + 1;
    }
    return None;
  }
}

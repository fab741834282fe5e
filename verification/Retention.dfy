/** How long a receipt is remembered, and what a retry is answered in that time. */
module Retention {
  import opened Wrappers
  import opened Contracts
  import opened SceneGraph
  import opened Glances
  import opened LostWires
  import opened ExecutorSpec
  import opened Served
  import opened Runs
  import SeenGate

  /** How many receipts were cached after this one. */
  function Newer(cache: Cache, key: CacheKey): (n: nat)
    requires CacheGet(cache, key).Some?
    ensures n < |cache|
  {
    if cache[0].0 == key then |cache| - 1 else Newer(cache[1..], key)
  }

  /** One key, one place. */
  lemma {:induction false} PlaceIs(cache: Cache, cacheMax: nat, i: nat)
    requires CacheOk(cache, cacheMax) && i < |cache|
    ensures CacheGet(cache, cache[i].0) == Some(cache[i].1) && Newer(cache, cache[i].0) == |cache| - 1 - i
  {
    if i > 0 {
      assert cache[0].0.0 != cache[i].0.0;
      assert cache[1..][i - 1] == cache[i];
      PlaceIs(cache[1..], cacheMax, i - 1);
    }
  }

  lemma PlaceOf(cache: Cache, cacheMax: nat, key: CacheKey) returns (i: nat)
    requires CacheOk(cache, cacheMax) && CacheGet(cache, key).Some?
    ensures i < |cache| && cache[i] == (key, CacheGet(cache, key).value) && Newer(cache, key) == |cache| - 1 - i
  {
    CacheGetIn(cache, key);
    i :| 0 <= i < |cache| && cache[i] == (key, CacheGet(cache, key).value);
    PlaceIs(cache, cacheMax, i);
  }

  // ---- one insertion -----------------------------------------------------

  ghost predicate Insertable(cache: Cache, key: CacheKey, cacheMax: nat) {
    CacheOk(cache, cacheMax) && cacheMax > 0 && CacheGet(cache, key).None? && !DigestConflict(cache, key.0, key.1)
  }

  /** An insertion forgets at most one receipt: the oldest, and only from a full cache. Every other one is still found,
      one place older. */
  lemma InsertionKeeps(cache: Cache, key: CacheKey, r: Receipt, cacheMax: nat, k: CacheKey)
    requires Insertable(cache, key, cacheMax) && CacheGet(cache, k).Some?
    ensures var next := CacheAdd(cache, key, r, cacheMax);
            && CacheOk(next, cacheMax) && CacheGet(next, key) == Some(r) && Newer(next, key) == 0
            && (CacheGet(next, k).Some? <==> Newer(cache, k) + 1 < cacheMax)
            && (CacheGet(next, k).Some? ==>
                  CacheGet(next, k) == CacheGet(cache, k) && Newer(next, k) == Newer(cache, k) + 1)
  {
    hide CacheOk, CacheGet, Newer, CacheAdd, DigestConflict;
    var next := CacheAdd(cache, key, r, cacheMax);
    CacheStaysOk(cache, key, r, cacheMax);
    CacheInOrder(cache, key, r, cacheMax);
    PlaceIs(next, cacheMax, |next| - 1);
    var i := PlaceOf(cache, cacheMax, k);
    var dropped := |cache| + 1 - |next|;
    if i >= dropped {
      assert next[i - dropped] == cache[i];
      PlaceIs(next, cacheMax, i - dropped);
    } else if CacheGet(next, k).Some? {
      var j := PlaceOf(next, cacheMax, k);
      if j < |next| - 1 { SamePlace(cache, cacheMax, j + dropped, i); }
    }
  }

  lemma SamePlace(cache: Cache, cacheMax: nat, i: nat, j: nat)
    requires CacheOk(cache, cacheMax) && i < |cache| && j < |cache| && cache[i].0 == cache[j].0
    ensures i == j
  {
  }

  // ---- over runs ---------------------------------------------------------

  function KeyOfCall(call: Call): CacheKey
    requires call.ApplyCall?
  {
    (call.cs.changeId, call.cs)
  }

  /** The call ran a transaction, and its receipt is cached. */
  predicate CachesNew(pre: BridgeState, call: Call) {
    call.ApplyCall? && !pre.frozen && CacheGet(pre.cache, KeyOfCall(call)).None? && call.reply.Replied?
  }

  lemma CallCaches(proc: Process, pre: BridgeState, call: Call, post: BridgeState)
    requires Step(proc, pre, call, post)
    ensures if CachesNew(pre, call)
            then !DigestConflict(pre.cache, call.cs.changeId, call.cs)
                 && post.cache == CacheAdd(pre.cache, KeyOfCall(call), call.reply.receipt, proc.cacheMax)
            else post.cache == pre.cache
  {
    hide TxServed, ReceiptShape, Sees, SeenGate.IdsTold, SeenGate.SeenError, CacheAdd, CacheGet, DigestConflict,
      ValidChangeSet;
  }

  /** The receipts cached from state `i` to state `j`. */
  function NewReceipts(states: seq<BridgeState>, calls: seq<Call>, i: nat, j: nat): nat
    requires i <= j < |states| && |states| == |calls| + 1
  {
    if i == j then 0
    else NewReceipts(states, calls, i, j - 1) + (if CachesNew(states[j - 1], calls[j - 1]) then 1 else 0)
  }

  /** A receipt is found for as long as fewer receipts than the bound were cached since, itself included, and from then on
      not until the same change has run again. */
  lemma {:induction false} FoundIff(proc: Process, states: seq<BridgeState>, calls: seq<Call>, i: nat, j: nat, key: CacheKey)
    requires IsRun(proc, states, calls) && i <= j < |states| && CacheGet(states[i].cache, key).Some?
    requires forall k :: i <= k < j && CachesNew(states[k], calls[k]) ==> KeyOfCall(calls[k]) != key
    ensures var since := Newer(states[i].cache, key) + NewReceipts(states, calls, i, j);
            && (CacheGet(states[j].cache, key).Some? <==> since < proc.cacheMax)
            && (CacheGet(states[j].cache, key).Some? ==>
                  CacheGet(states[j].cache, key) == CacheGet(states[i].cache, key)
                  && Newer(states[j].cache, key) == since)
    decreases j - i
  {
    hide Step, CacheOk, CacheGet, CacheAdd, Newer, CachesNew, DigestConflict, Tree;
    CacheAlwaysOk(proc, states, calls, i);
    if i == j {
      var p := PlaceOf(states[i].cache, proc.cacheMax, key);
      WithinBound(states[i].cache, proc.cacheMax);
    } else {
      FoundIff(proc, states, calls, i, j - 1, key);
      CacheAlwaysOk(proc, states, calls, j - 1);
      var pre, call := states[j - 1], calls[j - 1];
      CallCaches(proc, pre, call, states[j]);
      if CachesNew(pre, call) { NewIsOther(pre, call); OneMore(proc, pre, call, states[j], key); }
    }
  }

  /** While fewer receipts than the bound were cached since, the change cannot have run again either. */
  lemma {:induction false} StillFound(proc: Process, states: seq<BridgeState>, calls: seq<Call>, i: nat, j: nat,
                                      key: CacheKey)
    requires IsRun(proc, states, calls) && i <= j < |states| && CacheGet(states[i].cache, key).Some?
    requires Newer(states[i].cache, key) + NewReceipts(states, calls, i, j) < proc.cacheMax
    ensures CacheGet(states[j].cache, key) == CacheGet(states[i].cache, key)
    ensures forall k :: i <= k < j && CachesNew(states[k], calls[k]) ==> KeyOfCall(calls[k]) != key
    decreases j - i
  {
    hide Step, CacheOk, CacheGet, CacheAdd, Newer, CachesNew, DigestConflict, Tree;
    if i < j {
      StillFound(proc, states, calls, i, j - 1, key);
      if CachesNew(states[j - 1], calls[j - 1]) { NewIsOther(states[j - 1], calls[j - 1]); }
      FoundIff(proc, states, calls, i, j, key);
    }
  }

  lemma WithinBound(cache: Cache, cacheMax: nat)
    requires CacheOk(cache, cacheMax)
    ensures |cache| <= cacheMax
  {
  }

  lemma NewIsOther(pre: BridgeState, call: Call)
    requires CachesNew(pre, call)
    ensures call.ApplyCall? && call.reply.Replied? && CacheGet(pre.cache, KeyOfCall(call)).None?
  {
  }

  lemma OneMore(proc: Process, pre: BridgeState, call: Call, post: BridgeState, key: CacheKey)
    requires CacheOk(pre.cache, proc.cacheMax) && proc.cacheMax > 0 && CachesNew(pre, call) && KeyOfCall(call) != key
    requires !DigestConflict(pre.cache, call.cs.changeId, call.cs)
    requires post.cache == CacheAdd(pre.cache, KeyOfCall(call), call.reply.receipt, proc.cacheMax)
    ensures CacheGet(pre.cache, key).None? ==> CacheGet(post.cache, key).None?
    ensures CacheGet(pre.cache, key).Some? ==>
              && (CacheGet(post.cache, key).Some? <==> Newer(pre.cache, key) + 1 < proc.cacheMax)
              && (CacheGet(post.cache, key).Some? ==>
                    CacheGet(post.cache, key) == CacheGet(pre.cache, key)
                    && Newer(post.cache, key) == Newer(pre.cache, key) + 1)
  {
    hide CacheOk, CacheGet, CacheAdd, Newer, DigestConflict;
    if CacheGet(pre.cache, key).Some? {
      InsertionKeeps(pre.cache, KeyOfCall(call), call.reply.receipt, proc.cacheMax, key);
    } else {
      CacheGetIn(pre.cache, key);
      CacheGetIn(post.cache, key);
      CacheInOrder(pre.cache, KeyOfCall(call), call.reply.receipt, proc.cacheMax);
    }
  }

  /** A change whose receipt is still remembered is not run again: it is answered from the receipt, an applied one as
      already applied, and nothing changes. */
  lemma RetryIsAnswered(proc: Process, states: seq<BridgeState>, calls: seq<Call>, i: nat, j: nat)
    requires IsRun(proc, states, calls) && i < j < |calls| && CachesNew(states[i], calls[i])
    requires calls[j].ApplyCall? && calls[j].cs == calls[i].cs && !states[j].frozen
    requires NewReceipts(states, calls, i + 1, j) < proc.cacheMax
    ensures states[j + 1] == states[j] && calls[j].reply == Replied(Replay(calls[i].reply.receipt))
    ensures calls[i].reply.receipt.status == Applied ==>
              var r, again := calls[i].reply.receipt, calls[j].reply.receipt;
              && again.status == AlreadyApplied && again.changeId == r.changeId && again.binding == r.binding
              && again.appliedOps == [] && again.postResults == r.postResults && again.rollbackResults == []
              && !again.sceneMayHaveChanged && again.errorCode.None?
    ensures calls[i].reply.receipt.status != Applied ==> calls[j].reply == calls[i].reply
  {
    hide CacheOk, CacheGet, CacheAdd, Newer, DigestConflict, Tree, NewReceipts, Step, CachesNew, ValidCalls;
    NewIsOther(states[i], calls[i]);
    var key := KeyOfCall(calls[i]);
    RunSteps(proc, states, calls, i);
    RunSteps(proc, states, calls, j);
    NewReceiptFound(proc, states, calls, i);
    StillFound(proc, states, calls, i + 1, j, key);
    NewStatus(proc, states[i], calls[i], states[i + 1]);
    Remembered(proc, states[j], calls[j], states[j + 1]);
  }

  lemma RunSteps(proc: Process, states: seq<BridgeState>, calls: seq<Call>, i: nat)
    requires IsRun(proc, states, calls) && i < |calls|
    ensures Step(proc, states[i], calls[i], states[i + 1]) && proc.cacheMax > 0
  {
    hide Step;
  }

  lemma NewReceiptFound(proc: Process, states: seq<BridgeState>, calls: seq<Call>, i: nat)
    requires IsRun(proc, states, calls) && i < |calls| && CachesNew(states[i], calls[i])
    ensures CacheGet(states[i + 1].cache, KeyOfCall(calls[i])) == Some(calls[i].reply.receipt)
    ensures Newer(states[i + 1].cache, KeyOfCall(calls[i])) == 0
  {
    hide CacheOk, CacheGet, CacheAdd, Newer, DigestConflict, Step, Tree;
    var key, r := KeyOfCall(calls[i]), calls[i].reply.receipt;
    CacheAlwaysOk(proc, states, calls, i);
    RunSteps(proc, states, calls, i);
    CallCaches(proc, states[i], calls[i], states[i + 1]);
    CacheStaysOk(states[i].cache, key, r, proc.cacheMax);
    CacheInOrder(states[i].cache, key, r, proc.cacheMax);
    PlaceIs(states[i + 1].cache, proc.cacheMax, |states[i + 1].cache| - 1);
  }

  lemma NewStatus(proc: Process, pre: BridgeState, call: Call, post: BridgeState)
    requires Step(proc, pre, call, post) && CachesNew(pre, call)
    ensures call.ApplyCall? && call.reply.Replied? && call.reply.receipt.status != AlreadyApplied
  {
    hide TxServed, Sees, SeenGate.IdsTold, SeenGate.SeenError, CacheAdd, CacheGet, DigestConflict, ValidChangeSet;
  }

  lemma Remembered(proc: Process, pre: BridgeState, call: Call, post: BridgeState)
    requires Step(proc, pre, call, post) && call.ApplyCall? && !pre.frozen && CacheGet(pre.cache, KeyOfCall(call)).Some?
    ensures post == pre && call.reply == Replied(Replay(CacheGet(pre.cache, KeyOfCall(call)).value))
  {
    hide TxServed, ReceiptShape, Sees, SeenGate.IdsTold, SeenGate.SeenError, CacheAdd, CacheGet, DigestConflict,
      ValidChangeSet;
  }
}

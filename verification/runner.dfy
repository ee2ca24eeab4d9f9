/** The batch front-end: validating a batch, locking the keys of a signing
    batch, and handing the batch to the dispatcher. */
module Runner {
  import opened Wrappers
  import opened Rules
  import opened Keys
  import opened Dispatch

  /** Entry `i` is nil, or carries a nil payload. */
  predicate MissingAt(batch: seq<Option<Request>>, i: int)
    requires 0 <= i < |batch|
  {
    batch[i].None? || batch[i].value.data.None?
  }

  /** No entry is nil and no payload is nil. */
  predicate Complete(batch: seq<Option<Request>>)
  {
    forall i :: 0 <= i < |batch| ==> batch[i].Some? && batch[i].value.data.Some?
  }

  /** `i` is the first entry that is nil or has a nil payload. */
  predicate IsFirstMissing(batch: seq<Option<Request>>, i: int)
  {
    0 <= i < |batch| && MissingAt(batch, i) && forall j :: 0 <= j < i ==> !MissingAt(batch, j)
  }

  /** The requests of a batch without nil entries. */
  function Present(batch: seq<Option<Request>>): (requests: seq<Request>)
    requires Complete(batch)
    ensures |requests| == |batch|
    ensures forall i :: 0 <= i < |batch| ==> batch[i] == Some(requests[i])
  {
    seq(|batch|, i requires 0 <= i < |batch| => batch[i].value)
  }

  /** Request `i` of a signing batch is refused: it has no public key, or its
      normalised key is that of an earlier request. */
  predicate KeyFaultAt(requests: seq<Request>, i: int)
    requires 0 <= i < |requests|
  {
    || |requests[i].pubKey| == 0
    || exists j :: 0 <= j < i && Normalise(requests[j].pubKey) == Normalise(requests[i].pubKey)
  }

  /** `i` is the first refused request of a signing batch. */
  predicate IsFirstKeyFault(requests: seq<Request>, i: int)
  {
    0 <= i < |requests| && KeyFaultAt(requests, i) && forall j :: 0 <= j < i ==> !KeyFaultAt(requests, j)
  }

  /** Every request has a key and no two requests share a normalised key. */
  predicate KeysUnique(requests: seq<Request>)
  {
    forall i :: 0 <= i < |requests| ==> !KeyFaultAt(requests, i)
  }

  /** A batch that passes every check and reaches the dispatcher. */
  predicate Valid(action: Action, batch: seq<Option<Request>>)
  {
    && |batch| > 0
    && Complete(batch)
    && (action.IsSigning() ==> KeysUnique(Present(batch)))
  }

  /** No key appears twice. */
  predicate Distinct(keys: seq<Key>)
  {
    forall i, j :: 0 <= i < j < |keys| ==> keys[i] != keys[j]
  }

  /** The normalised key of each request, in input order. */
  function LockKeys(requests: seq<Request>): (keys: seq<Key>)
  {
    seq(|requests|, i requires 0 <= i < |requests| => Normalise(requests[i].pubKey))
  }

  /** Requests that pass the key check lock pairwise distinct keys. */
  lemma UniqueKeysLockDistinctKeys(requests: seq<Request>)
    requires KeysUnique(requests)
    ensures Distinct(LockKeys(requests))
  {
    var keys := LockKeys(requests);
    forall i, j | 0 <= i < j < |keys|
      ensures keys[i] != keys[j]
    {
      assert !KeyFaultAt(requests, j);
    }
  }

  /** The scan for a nil entry or nil payload, from entry `from` on. */
  function FirstMissingFrom(batch: seq<Option<Request>>, from: nat): (r: Option<nat>)
    requires from <= |batch|
    ensures r.Some? ==>
              && from <= r.value < |batch|
              && MissingAt(batch, r.value)
              && forall j :: from <= j < r.value ==> !MissingAt(batch, j)
    ensures r.None? ==> forall j :: from <= j < |batch| ==> batch[j].Some? && batch[j].value.data.Some?
    decreases |batch| - from
  {
    if from == |batch| then None
    else if MissingAt(batch, from) then Some(from)
    else FirstMissingFrom(batch, from + 1)
  }

  /** The scan for a missing or repeated key, from request `from` on; `seen`
      holds the normalised keys of the requests before `from`, like the Go
      map of keys already met. */
  function FirstKeyFaultFrom(requests: seq<Request>, from: nat, seen: set<Key>): (r: Option<nat>)
    requires from <= |requests|
    requires seen == set j | 0 <= j < from :: Normalise(requests[j].pubKey)
    ensures r.Some? ==>
              && from <= r.value < |requests|
              && KeyFaultAt(requests, r.value)
              && forall j :: from <= j < r.value ==> !KeyFaultAt(requests, j)
    ensures r.None? ==> forall j :: from <= j < |requests| ==> !KeyFaultAt(requests, j)
    decreases |requests| - from
  {
    if from == |requests| then None
    else if |requests[from].pubKey| == 0 then Some(from)
    else
      var key := Normalise(requests[from].pubKey);
      if key in seen then Some(from)
      else
        assert seen + {key} == set j | 0 <= j < from + 1 :: Normalise(requests[j].pubKey);
        FirstKeyFaultFrom(requests, from + 1, seen + {key})
  }

  /** How validation ends: an empty batch, a refused slot (the early returns),
      or a batch handed on with its requests and the keys to lock. */
  datatype Validation =
    | EmptyBatch
    | Rejected(slot: nat)
    | Accepted(requests: seq<Request>, lockKeys: seq<Key>)

  /** The checks made before any lock is taken or any rule runs. */
  function Validate(action: Action, batch: seq<Option<Request>>): (v: Validation)
    ensures v.EmptyBatch? <==> |batch| == 0
    ensures v.Accepted? <==> Valid(action, batch)
    ensures v.Rejected? ==>
              if Complete(batch) then action.IsSigning() && IsFirstKeyFault(Present(batch), v.slot)
              else IsFirstMissing(batch, v.slot)
    ensures v.Accepted? ==> v.requests == Present(batch)
    ensures v.Accepted? ==> v.lockKeys == if action.IsSigning() then LockKeys(v.requests) else []
    ensures v.Accepted? ==> Distinct(v.lockKeys)
  {
    if |batch| == 0 then
      EmptyBatch
    else
      match FirstMissingFrom(batch, 0)
      case Some(i) => Rejected(i)
      case None =>
        var requests := Present(batch);
        if action.IsSigning() then
          match FirstKeyFaultFrom(requests, 0, {})
          case Some(i) => Rejected(i)
          case None =>
            UniqueKeysLockDistinctKeys(requests);
            Accepted(requests, LockKeys(requests))
        else
          Accepted(requests, [])
  }

  /** The results of a batch refused at `slot`: that slot failed, every other
      slot left at the placeholder. */
  function FailedOnlyAt(n: nat, slot: nat): seq<Result>
  {
    seq(n, j => if j == slot then Failed else Unknown)
  }

  /** The batch entry point. */
  function RunRules(credentials: Option<Credentials>, action: Action, batch: seq<Option<Request>>, hooks: Hooks)
    : (results: seq<Result>)
    ensures |batch| == 0 ==> results == [Failed]
    ensures |batch| > 0 ==> |results| == |batch|
    ensures forall i :: IsFirstMissing(batch, i) ==> results == FailedOnlyAt(|batch|, i)
    ensures Complete(batch) && action.IsSigning() ==>
              forall i :: IsFirstKeyFault(Present(batch), i) ==> results == FailedOnlyAt(|batch|, i)
    ensures Valid(action, batch) ==>
              forall i :: 0 <= i < |batch| ==> results[i] == SlotResult(credentials, action, Present(batch)[i], hooks)
  {
    match Validate(action, batch)
    case EmptyBatch => [Failed]
    case Rejected(i) => FailedOnlyAt(|batch|, i)
    case Accepted(requests, _) => DispatchBatch(credentials, action, requests, hooks)
  }

  /** `Unknown` survives in the results exactly when validation refused a
      batch of more than one entry. */
  lemma UnknownOnlyWhenRejected(credentials: Option<Credentials>, action: Action,
                                batch: seq<Option<Request>>, hooks: Hooks)
    ensures Unknown in RunRules(credentials, action, batch, hooks) <==> |batch| > 1 && !Valid(action, batch)
  {
    var v := Validate(action, batch);
    if v.Rejected? && |batch| > 1 {
      var other := if v.slot == 0 then 1 else 0;
      assert RunRules(credentials, action, batch, hooks)[other] == Unknown;
    }
  }

  /** Only the refused slot of a refused batch is `Failed`. */
  lemma RejectionFailsOneSlot(credentials: Option<Credentials>, action: Action,
                              batch: seq<Option<Request>>, hooks: Hooks)
    requires |batch| > 0 && !Valid(action, batch)
    ensures exists i :: 0 <= i < |batch| && RunRules(credentials, action, batch, hooks) == FailedOnlyAt(|batch|, i)
  {
    var v := Validate(action, batch);
    assert RunRules(credentials, action, batch, hooks) == FailedOnlyAt(|batch|, v.slot);
  }

  /** An event of the ghost lock trace: a key locked, the rules run over the
      batch, a key unlocked. */
  datatype LockEvent = Lock(key: Key) | Evaluate | Unlock(key: Key)

  /** Locking each key in input order. */
  ghost function Acquire(keys: seq<Key>): seq<LockEvent>
  {
    if keys == [] then [] else [Lock(keys[0])] + Acquire(keys[1..])
  }

  /** The unlocks deferred while locking `keys`: they run last-registered
      first, so the first key is unlocked last. */
  ghost function Deferred(keys: seq<Key>): seq<LockEvent>
  {
    if keys == [] then [] else Deferred(keys[1..]) + [Unlock(keys[0])]
  }

  /** What one batch call does to the per-key locks and when the rules run. */
  ghost function LockTrace(action: Action, batch: seq<Option<Request>>): seq<LockEvent>
  {
    match Validate(action, batch)
    case Accepted(_, keys) => Acquire(keys) + [Evaluate] + Deferred(keys)
    case _ => []
  }

  lemma {:induction false} AcquireLocksInOrder(keys: seq<Key>)
    ensures |Acquire(keys)| == |keys|
    ensures forall i :: 0 <= i < |keys| ==> Acquire(keys)[i] == Lock(keys[i])
  {
    if keys != [] {
      AcquireLocksInOrder(keys[1..]);
    }
  }

  lemma {:induction false} DeferredUnlocksInReverse(keys: seq<Key>)
    ensures |Deferred(keys)| == |keys|
    ensures forall i :: 0 <= i < |keys| ==> Deferred(keys)[i] == Unlock(keys[|keys| - 1 - i])
  {
    if keys != [] {
      DeferredUnlocksInReverse(keys[1..]);
    }
  }

  lemma {:induction false} DistinctCountsAtMostOne(keys: seq<Key>, k: Key)
    requires Distinct(keys)
    ensures multiset(keys)[k] <= 1
  {
    if keys != [] {
      assert keys == [keys[0]] + keys[1..];
      assert Distinct(keys[1..]);
      DistinctCountsAtMostOne(keys[1..], k);
      if keys[0] == k {
        assert k !in keys[1..];
      }
    }
  }

  lemma {:induction false} AcquireCounts(keys: seq<Key>, k: Key)
    ensures multiset(Acquire(keys))[Lock(k)] == multiset(keys)[k]
    ensures multiset(Acquire(keys))[Unlock(k)] == 0
  {
    if keys != [] {
      assert keys == [keys[0]] + keys[1..];
      AcquireCounts(keys[1..], k);
    }
  }

  lemma {:induction false} DeferredCounts(keys: seq<Key>, k: Key)
    ensures multiset(Deferred(keys))[Unlock(k)] == multiset(keys)[k]
    ensures multiset(Deferred(keys))[Lock(k)] == 0
  {
    if keys != [] {
      assert keys == [keys[0]] + keys[1..];
      DeferredCounts(keys[1..], k);
    }
  }

  /** Locks are taken only for a valid signing batch, one per request, in
      input order, on the normalised keys; the rules then run once; then the
      keys are unlocked in reverse order. A refused batch takes no lock and
      runs no rule; a valid non-signing batch runs the rules without locks. */
  lemma LockOrder(action: Action, batch: seq<Option<Request>>)
    ensures Evaluate in LockTrace(action, batch) <==> Valid(action, batch)
    ensures !Valid(action, batch) ==> LockTrace(action, batch) == []
    ensures Valid(action, batch) && !action.IsSigning() ==> LockTrace(action, batch) == [Evaluate]
    ensures Valid(action, batch) && action.IsSigning() ==>
              var t, n := LockTrace(action, batch), |batch|;
              && |t| == 2 * n + 1
              && t[n] == Evaluate
              && (forall i :: 0 <= i < n ==> t[i] == Lock(Normalise(Present(batch)[i].pubKey)))
              && (forall i :: n < i < 2 * n + 1 ==> t[i] == Unlock(Normalise(Present(batch)[2 * n - i].pubKey)))
  {
    var v := Validate(action, batch);
    if v.Accepted? {
      var keys := v.lockKeys;
      var t := LockTrace(action, batch);
      AcquireLocksInOrder(keys);
      DeferredUnlocksInReverse(keys);
      assert t == Acquire(keys) + [Evaluate] + Deferred(keys);
      assert t[|keys|] == Evaluate;
    }
  }

  /** Every key locked is unlocked exactly once, and no key is locked twice
      in one batch (which would block the batch on its own lock). */
  lemma LockBalance(action: Action, batch: seq<Option<Request>>, k: Key)
    ensures multiset(LockTrace(action, batch))[Lock(k)] == multiset(LockTrace(action, batch))[Unlock(k)]
    ensures multiset(LockTrace(action, batch))[Lock(k)] <= 1
  {
    var v := Validate(action, batch);
    if v.Accepted? {
      var keys := v.lockKeys;
      AcquireCounts(keys, k);
      DeferredCounts(keys, k);
      DistinctCountsAtMostOne(keys, k);
      assert multiset(LockTrace(action, batch))
          == multiset(Acquire(keys)) + multiset([Evaluate]) + multiset(Deferred(keys));
    }
  }
}

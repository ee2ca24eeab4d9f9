/** The model's results on concrete batches, proved as lemmas. */
module Scenarios {
  import opened Wrappers
  import opened Rules
  import opened Keys
  import opened Dispatch
  import opened Runner

  const K1: Key := seq(48, _ => 1)
  const K2: Key := seq(48, _ => 2)
  const Caller: Option<Credentials> := Some(Credentials("client", "10.0.0.1"))

  function ApproveAll(h: Hook, m: ReqMetadata, p: Payload): Result { Approved }
  function AnswerUnknown(h: Hook, m: ReqMetadata, p: Payload): Result { Unknown }
  function ApproveListOnly(h: Hook, m: ReqMetadata, p: Payload): Result
  {
    if h == OnListAccounts then Approved else Denied
  }

  function SignRequest(account: string, key: seq<byte>): Option<Request>
  {
    Some(Request("w1", account, key, Some(SignData([]))))
  }

  /** Two signing requests on distinct keys: both evaluated, both keys locked
      in order and unlocked in reverse order around the evaluation. */
  lemma TwoDistinctKeys()
    ensures RunRules(Caller, Sign, [SignRequest("a1", K1), SignRequest("a2", K2)], ApproveAll)
         == [Approved, Approved]
    ensures LockTrace(Sign, [SignRequest("a1", K1), SignRequest("a2", K2)])
         == [Lock(K1), Lock(K2), Evaluate, Unlock(K2), Unlock(K1)]
  {
    var batch := [SignRequest("a1", K1), SignRequest("a2", K2)];
    var requests := Present(batch);
    assert requests[0].pubKey == K1 && requests[1].pubKey == K2;
    assert Normalise(K1) == K1 && Normalise(K2) == K2;
    assert K1[0] != K2[0];
    assert KeysUnique(requests);
    LockOrder(Sign, batch);
    var t := LockTrace(Sign, batch);
    assert t[0] == Lock(K1) && t[1] == Lock(K2) && t[2] == Evaluate;
    assert t[3] == Unlock(K2) && t[4] == Unlock(K1);
  }

  /** Two signing requests on one key: only the second slot fails, the first
      stays `Unknown`, and nothing is locked. */
  lemma RepeatedKey()
    ensures RunRules(Caller, Sign, [SignRequest("a1", K1), SignRequest("a2", K1)], ApproveAll)
         == [Unknown, Failed]
    ensures LockTrace(Sign, [SignRequest("a1", K1), SignRequest("a2", K1)]) == []
  {
    var batch := [SignRequest("a1", K1), SignRequest("a2", K1)];
    var requests := Present(batch);
    assert requests[0].pubKey == K1 && requests[1].pubKey == K1;
    assert KeyFaultAt(requests, 1);
    assert !KeyFaultAt(requests, 0);
    assert IsFirstKeyFault(requests, 1);
    assert FailedOnlyAt(2, 1) == [Unknown, Failed];
    LockOrder(Sign, batch);
  }

  /** Keys `[1]` and `[1, 0]` differ as bytes but are the same once padded to
      48 bytes, so the second request is refused as a repeat. */
  lemma PaddedKeysCollide()
    ensures RunRules(Caller, Sign, [SignRequest("a1", [1]), SignRequest("a2", [1, 0])], ApproveAll)
         == [Unknown, Failed]
  {
    var batch := [SignRequest("a1", [1]), SignRequest("a2", [1, 0])];
    TrailingZeroIsIgnored([1]);
    assert [1] + [0] == [1, 0];
    var requests := Present(batch);
    assert requests[0].pubKey == [1] && requests[1].pubKey == [1, 0];
    assert KeyFaultAt(requests, 1);
    assert !KeyFaultAt(requests, 0);
    assert IsFirstKeyFault(requests, 1);
    assert FailedOnlyAt(2, 1) == [Unknown, Failed];
  }

  /** A nil entry in the middle of a batch fails that slot only. */
  lemma NilEntry()
    ensures RunRules(Caller, LockWallet,
                     [Some(Request("w1", "", [], Some(LockWalletData([])))), None,
                      Some(Request("w2", "", [], Some(LockWalletData([]))))], ApproveAll)
         == [Unknown, Failed, Unknown]
  {
    var batch := [Some(Request("w1", "", [], Some(LockWalletData([])))), None,
                  Some(Request("w2", "", [], Some(LockWalletData([]))))];
    assert IsFirstMissing(batch, 1);
    assert FailedOnlyAt(3, 1) == [Unknown, Failed, Unknown];
  }

  /** The access-account action is answered by the list-accounts hook. */
  lemma AccessAccountUsesListHook()
    ensures RunRules(Caller, AccessAccount, [Some(Request("w1", "a1", [], Some(AccessAccountData([]))))],
                     ApproveListOnly)
         == [Approved]
  {
  }

  /** A hook answering `Unknown` leaves the slot `Failed`. */
  lemma UnknownFromHookFails()
    ensures RunRules(Caller, Sign, [SignRequest("a1", K1)], AnswerUnknown) == [Failed]
  {
  }

  /** An empty batch yields one `Failed` and takes no lock. */
  lemma EmptyBatchFails()
    ensures RunRules(Caller, Sign, [], ApproveAll) == [Failed]
    ensures LockTrace(Sign, []) == []
  {
  }
}

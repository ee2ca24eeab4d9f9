# Batch rule runner of the signing-authorisation service

This project models the batch front-end of the Go rule runner in
`services/ruler/golang/runner.go`. The runner takes the caller's credentials,
one action, and a batch of requests. It then works in three stages:

- It validates the batch. An empty batch fails. A nil entry or a nil payload
  fails. For the three signing actions, a missing public key or a public key
  already used in the batch also fails.
- For signing actions, it locks every request's key in input order.
- It runs the rule hook that matches the action for each request. It builds
  the hook's request metadata from the credentials.

The model has one module for each part of the code:

- `Wrappers`: `Option` in place of nil, and `Outcome` in place of Go's `(value, error)` pair.
- `Rules`: actions, the nine payload variants, requests, credentials, request metadata, rule results, and the hook signature.
- `Keys`: the copy of a public key into a 48-byte array. Shorter keys are zero-padded and longer keys are truncated.
- `Metadata`: `assembleMetadata`.
- `Dispatch`: `runRules`. This is the per-request switch over action × payload variant, plus the step that turns a hook's `UNKNOWN` into `FAILED`.
- `Runner`: `RunRules`, which covers validation, the duplicate-key check and hand-off to dispatch. It also holds a ghost trace of lock and unlock events.
- `Scenarios`: the model's results on concrete batches, proved as lemmas.

The rule engine is a function parameter `Hooks` from (hook, metadata, payload)
to a result. Lock calls appear only as a ghost trace. The trace records
`Lock(key)` for each key in input order, then one `Evaluate` for the call into
`runRules`, then `Unlock(key)` in the reverse order, because Go runs deferred
calls last-in first-out.

## Behaviour worth noting

- **Refused batches.** A refused batch fails only the offending slot and
  returns early; every other slot stays `UNKNOWN`. This holds for a nil
  entry, a nil payload, a missing key and a repeated key (lines 45-56 and
  64-76). `Runner.RunRules` and `Runner.UnknownOnlyWhenRejected` state
  this. For example, two signing requests on the same key give
  `[UNKNOWN, FAILED]` (`Scenarios.RepeatedKey`).
- **`UNKNOWN` in the final result.** A refused batch of two or more entries
  returns `UNKNOWN` in every slot except the refused one. A batch that
  passes validation never contains `UNKNOWN`.
- **Key comparison.** Keys are compared after the 48-byte copy, so keys
  that differ only in trailing zero bytes, or only after byte 48, count as
  the same key (`Keys.TrailingZeroIsIgnored`, `Keys.TailIsIgnored`,
  `Scenarios.PaddedKeysCollide`). Two full 48-byte keys are the same only
  when they are equal.

## Model

| member | source | states |
|---|---|---|
| `Runner.RunRules` | services/ruler/golang/runner.go:28-91 | An empty batch gives exactly `[FAILED]`. Otherwise the result has one slot per entry. If the first nil entry or nil payload is at `i`, only slot `i` is `FAILED` and the rest are `UNKNOWN`. For a signing action, if the first missing or repeated key is at `i`, the same holds. A valid batch gets, in each slot, the dispatcher's result for that request. |
| `Runner.Validate` | services/ruler/golang/runner.go:36-78 | Validation ends in one of three ways. An empty batch is rejected outright. Otherwise it refuses the first faulty slot: nil checks come before key checks, and key checks apply only to signing actions. Otherwise it accepts the batch exactly when the batch is valid. An accepted signing batch locks the normalised keys in input order, and those keys are pairwise distinct. Non-signing batches lock nothing. |
| `Runner.FirstMissingFrom` | services/ruler/golang/runner.go:45-56 | Finds the first index at or after `from` whose entry or payload is nil. If it finds none, every later entry and its payload are present. |
| `Runner.FirstKeyFaultFrom` | services/ruler/golang/runner.go:62-78 | The scan uses a set of keys already seen. It finds exactly the first request whose key is empty or whose normalised key matches an earlier request's key. |
| `Runner.UniqueKeysLockDistinctKeys` | services/ruler/golang/runner.go:63-87 | Once the duplicate-key check has passed, the keys to be locked are pairwise distinct. |
| `Runner.UnknownOnlyWhenRejected` | services/ruler/golang/runner.go:41-90 | `UNKNOWN` appears in the results exactly when validation refused a batch of two or more entries. |
| `Runner.RejectionFailsOneSlot` | services/ruler/golang/runner.go:45-76 | A non-empty batch that fails validation has exactly one `FAILED` slot. Every other slot is `UNKNOWN`. |
| `Runner.AcquireLocksInOrder` | services/ruler/golang/runner.go:82-85 | The lock loop locks the i-th key at step i. |
| `Runner.DeferredUnlocksInReverse` | services/ruler/golang/runner.go:86 | The deferred unlocks release the keys in reverse order of locking. |
| `Runner.LockOrder` | services/ruler/golang/runner.go:58-90 | The rules run exactly when the batch is valid. A refused or empty batch takes no lock. A valid non-signing batch runs the rules without any lock. A valid signing batch locks each request's normalised key in input order, runs the rules once while all locks are held, and then unlocks in reverse order. |
| `Runner.LockBalance` | services/ruler/golang/runner.go:80-87 | For every key, the number of locks equals the number of unlocks, and that number is at most one. |
| `Keys.Normalise` | services/ruler/golang/runner.go:65-71 | The 48-byte key starts with the raw key and is zero-filled after it. A raw key of 48 bytes or more is truncated to its first 48 bytes. |
| `Keys.FullKeysCollideOnlyWhenEqual` | services/ruler/golang/runner.go:71-72 | Two 48-byte keys count as duplicates exactly when they are equal. |
| `Keys.TrailingZeroIsIgnored` | services/ruler/golang/runner.go:71-72 | A short key and the same key with a trailing zero byte normalise to the same key, so they count as duplicates. |
| `Keys.TailIsIgnored` | services/ruler/golang/runner.go:71-72 | Bytes after the 48th never affect the duplicate check. |
| `Metadata.AssembleMetadata` | services/ruler/golang/runner.go:207-223 | Fails exactly when the credentials are nil or name no client. Nil credentials give the "no credentials" error; present credentials with an empty client give the "no client in credentials" error. On success the metadata carries the request's account and its raw key, plus the credentials' IP and client, and the client is non-empty. |
| `Metadata.MetadataFailureIsBatchWide` | services/ruler/golang/runner.go:115-120 | Whether metadata assembly fails, and with which error, depends only on the credentials. It does not depend on the request. |
| `Dispatch.HookFor` | services/ruler/golang/runner.go:121-197 | Each of the nine recognised actions has a hook. An unrecognised action has none. |
| `Dispatch.HookForIsInjective` | services/ruler/golang/runner.go:121-193 | Different recognised actions are routed to different hooks. |
| `Dispatch.HookCall` | services/ruler/golang/runner.go:115-193 | A hook is called exactly when metadata assembly succeeds and the payload is present and is the variant the action expects. The call goes to the action's hook, with the assembled metadata and the request's own payload. |
| `Dispatch.SlotResult` | services/ruler/golang/runner.go:115-201 | A slot is never `UNKNOWN`. It is `FAILED` when no hook is called. Otherwise it holds the hook's answer, except that an `UNKNOWN` answer becomes `FAILED`. |
| `Dispatch.DispatchBatch` | services/ruler/golang/runner.go:96-205 | There is one result per request, in input order. Slot `i` is the slot result of request `i` alone. No slot is `UNKNOWN`. |
| `Dispatch.DispatchBatchAppend` | services/ruler/golang/runner.go:106-202 | Slots are isolated: dispatching two batches separately gives the same results as dispatching them concatenated. |
| `Dispatch.MismatchIgnoresHooks` | services/ruler/golang/runner.go:123-128 | If the payload does not match the action, the slot is `FAILED` no matter what the hooks would answer. |
| `Dispatch.BadCredentialsFailEverySlot` | services/ruler/golang/runner.go:115-120 | Nil credentials, or credentials with no client, make every slot `FAILED`. |
| `Dispatch.UnrecognisedActionFailsEverySlot` | services/ruler/golang/runner.go:194-196 | An unrecognised action makes every slot `FAILED`. |
| `Scenarios.TwoDistinctKeys` | services/ruler/golang/runner.go:59-90 | Two signing requests on distinct keys, with hooks that always approve, give `[APPROVED, APPROVED]`. The trace is lock K1, lock K2, evaluate, unlock K2, unlock K1. |
| `Scenarios.RepeatedKey` | services/ruler/golang/runner.go:72-75 | Two signing requests on the same key give `[UNKNOWN, FAILED]` and take no lock. |
| `Scenarios.PaddedKeysCollide` | services/ruler/golang/runner.go:65-75 | The keys `[1]` and `[1, 0]` are treated as the same key. |
| `Scenarios.NilEntry` | services/ruler/golang/runner.go:45-50 | A nil middle entry gives `[UNKNOWN, FAILED, UNKNOWN]`. |
| `Scenarios.AccessAccountUsesListHook` | services/ruler/golang/runner.go:146-153 | The access-account action is answered by the list-accounts hook. |
| `Scenarios.UnknownFromHookFails` | services/ruler/golang/runner.go:198-201 | When a hook answers `UNKNOWN`, the slot becomes `FAILED`. |
| `Scenarios.EmptyBatchFails` | services/ruler/golang/runner.go:37-40 | An empty batch gives `[FAILED]` and takes no lock. |

## Left out

- Blocking and mutual exclusion of the real key locker (`s.locker.Lock`/`Unlock`), across concurrent batches too. This includes the deadlock that two batches can reach by locking overlapping keys in different orders. These are concurrency concerns, so only the ghost order of lock and unlock events is modelled.
- Tracing spans and logging. This includes the `wallet/account` display name built at lines 107-113, which is used only for logging.
- The rule engine's decision logic, and any state it keeps between calls. The hooks are one pure function parameter, so a hook's answer for one request cannot depend on earlier requests in the batch.
- `context.Context` and cancellation. Nothing in this file observes the context except the hooks, which are outside the model.
- The string values of the action constants. The nine known actions are constructors. `Unrecognised(name)` stands for every other action string.
- A payload of a Go type other than the nine rule-data types. In the code it fails the type assertion, just like a mismatched variant, so the nine variants already cover that branch.
- Fields of the credentials other than the client and the IP, because this file reads no others.

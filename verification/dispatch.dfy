/** Routing each request of an already validated batch to the rule hook for
    its action, and collecting one result per request. */
module Dispatch {
  import opened Wrappers
  import opened Rules
  import opened Metadata

  /** The hook a recognised action is routed to; the access-account action
      goes to the list-accounts hook. */
  function HookFor(action: Action): (h: Option<Hook>)
    ensures h.None? <==> action.Unrecognised?
  {
    match action
    case Sign => Some(OnSign)
    case SignBeaconProposal => Some(OnSignBeaconProposal)
    case SignBeaconAttestation => Some(OnSignBeaconAttestation)
    case AccessAccount => Some(OnListAccounts)
    case LockWallet => Some(OnLockWallet)
    case UnlockWallet => Some(OnUnlockWallet)
    case LockAccount => Some(OnLockAccount)
    case UnlockAccount => Some(OnUnlockAccount)
    case CreateAccount => Some(OnCreateAccount)
    case Unrecognised(_) => None
  }

  /** Distinct recognised actions reach distinct hooks. */
  lemma HookForIsInjective(a: Action, b: Action)
    requires HookFor(a).Some? && HookFor(a) == HookFor(b)
    ensures a == b
  {
  }

  /** The payload is present and is the variant the action expects. */
  predicate Matches(action: Action, data: Option<Payload>)
  {
    data.Some? && KindOf(data.value) == action
  }

  /** One invocation of a rule hook. */
  datatype Call = Call(hook: Hook, metadata: ReqMetadata, payload: Payload)

  /** The hook invocation made for one request, if any: none when the metadata
      cannot be built, when the action is not recognised, or when the payload
      is not the variant the action expects. */
  function HookCall(credentials: Option<Credentials>, action: Action, request: Request): (c: Option<Call>)
    ensures c.Some? <==>
              AssembleMetadata(credentials, request.accountName, request.pubKey).Ok?
              && Matches(action, request.data)
    ensures c.Some? ==>
              && Some(c.value.hook) == HookFor(action)
              && c.value.metadata == AssembleMetadata(credentials, request.accountName, request.pubKey).value
              && Some(c.value.payload) == request.data
  {
    match AssembleMetadata(credentials, request.accountName, request.pubKey)
    case Err(_) => None
    case Ok(metadata) =>
      var data := request.data;
      match action
      case Sign =>
        if data.Some? && data.value.SignData? then Some(Call(OnSign, metadata, data.value)) else None
      case SignBeaconProposal =>
        if data.Some? && data.value.SignBeaconProposalData? then Some(Call(OnSignBeaconProposal, metadata, data.value)) else None
      case SignBeaconAttestation =>
        if data.Some? && data.value.SignBeaconAttestationData? then Some(Call(OnSignBeaconAttestation, metadata, data.value)) else None
      case AccessAccount =>
        if data.Some? && data.value.AccessAccountData? then Some(Call(OnListAccounts, metadata, data.value)) else None
      case LockWallet =>
        if data.Some? && data.value.LockWalletData? then Some(Call(OnLockWallet, metadata, data.value)) else None
      case UnlockWallet =>
        if data.Some? && data.value.UnlockWalletData? then Some(Call(OnUnlockWallet, metadata, data.value)) else None
      case LockAccount =>
        if data.Some? && data.value.LockAccountData? then Some(Call(OnLockAccount, metadata, data.value)) else None
      case UnlockAccount =>
        if data.Some? && data.value.UnlockAccountData? then Some(Call(OnUnlockAccount, metadata, data.value)) else None
      case CreateAccount =>
        if data.Some? && data.value.CreateAccountData? then Some(Call(OnCreateAccount, metadata, data.value)) else None
      case Unrecognised(_) => None
  }

  /** The result of one slot: `Failed` when no hook is invoked, otherwise the
      hook's result, with `Unknown` turned into `Failed`. */
  function SlotResult(credentials: Option<Credentials>, action: Action, request: Request, hooks: Hooks): (r: Result)
    ensures r != Unknown
    ensures HookCall(credentials, action, request).None? ==> r == Failed
    ensures HookCall(credentials, action, request).Some? ==>
              var call := HookCall(credentials, action, request).value;
              var verdict := hooks(call.hook, call.metadata, call.payload);
              (verdict != Unknown ==> r == verdict) && (verdict == Unknown ==> r == Failed)
  {
    match HookCall(credentials, action, request)
    case None => Failed
    case Some(call) =>
      var verdict := hooks(call.hook, call.metadata, call.payload);
      if verdict == Unknown then Failed else verdict
  }

  /** The inner batch loop: one result per request, in input order, each
      computed from its own request alone, and none left `Unknown`. */
  function DispatchBatch(credentials: Option<Credentials>, action: Action, requests: seq<Request>, hooks: Hooks)
    : (results: seq<Result>)
    ensures |results| == |requests|
    ensures forall i :: 0 <= i < |requests| ==> results[i] == SlotResult(credentials, action, requests[i], hooks)
    ensures Unknown !in results
  {
    if requests == [] then
      []
    else
      [SlotResult(credentials, action, requests[0], hooks)] + DispatchBatch(credentials, action, requests[1..], hooks)
  }

  /** Slots are isolated: dispatching two batches back to back gives the same
      results as dispatching their concatenation. */
  lemma {:induction false} DispatchBatchAppend(credentials: Option<Credentials>, action: Action,
                                               front: seq<Request>, back: seq<Request>, hooks: Hooks)
    ensures DispatchBatch(credentials, action, front + back, hooks)
         == DispatchBatch(credentials, action, front, hooks) + DispatchBatch(credentials, action, back, hooks)
  {
    if front != [] {
      assert (front + back)[1..] == front[1..] + back;
      DispatchBatchAppend(credentials, action, front[1..], back, hooks);
    } else {
      assert front + back == back;
    }
  }

  /** A slot whose payload does not suit the action fails whatever the hooks
      would answer. */
  lemma MismatchIgnoresHooks(credentials: Option<Credentials>, action: Action, request: Request,
                             hooks1: Hooks, hooks2: Hooks)
    requires !Matches(action, request.data)
    ensures SlotResult(credentials, action, request, hooks1) == Failed
    ensures SlotResult(credentials, action, request, hooks2) == Failed
  {
  }

  /** Missing credentials or a missing client name fail every slot. */
  lemma BadCredentialsFailEverySlot(credentials: Option<Credentials>, action: Action,
                                    requests: seq<Request>, hooks: Hooks)
    requires credentials.None? || credentials.value.client == ""
    ensures forall i :: 0 <= i < |requests| ==> DispatchBatch(credentials, action, requests, hooks)[i] == Failed
  {
  }

  /** An unrecognised action fails every slot. */
  lemma UnrecognisedActionFailsEverySlot(credentials: Option<Credentials>, name: string,
                                         requests: seq<Request>, hooks: Hooks)
    ensures forall i :: 0 <= i < |requests| ==>
              DispatchBatch(credentials, Unrecognised(name), requests, hooks)[i] == Failed
  {
  }
}

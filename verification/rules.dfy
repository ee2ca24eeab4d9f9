/** The values the batch runner exchanges with its callers and with the rule
    engine: actions, typed payloads, requests, credentials, request metadata
    and rule results. */
module Rules {
  import opened Wrappers

  /** One byte of a public key. */
  type byte = b: int | 0 <= b < 256

  /** The classification a rule hook renders for one request. `Unknown` is the
      placeholder every result slot starts from; a hook is not supposed to
      return it. */
  datatype Result = Unknown | Approved | Denied | Failed

  /** The action a batch asks for. The runner recognises nine action strings;
      `Unrecognised` stands for any other string. */
  datatype Action =
    | Sign
    | SignBeaconProposal
    | SignBeaconAttestation
    | AccessAccount
    | LockWallet
    | UnlockWallet
    | LockAccount
    | UnlockAccount
    | CreateAccount
    | Unrecognised(name: string)
  {
    /** The signing actions: the only ones that need a distinct public key per
        request and a lock on each key while the rules run. */
    predicate IsSigning()
    {
      this == Sign || this == SignBeaconProposal || this == SignBeaconAttestation
    }
  }

  /** The typed payload of a request, one variant per recognised action. The
      fields are only read by the rule engine, so they stay opaque here. */
  datatype Payload =
    | SignData(fields: seq<byte>)
    | SignBeaconProposalData(fields: seq<byte>)
    | SignBeaconAttestationData(fields: seq<byte>)
    | AccessAccountData(fields: seq<byte>)
    | LockWalletData(fields: seq<byte>)
    | UnlockWalletData(fields: seq<byte>)
    | LockAccountData(fields: seq<byte>)
    | UnlockAccountData(fields: seq<byte>)
    | CreateAccountData(fields: seq<byte>)

  /** The action a payload variant is meant for. */
  function KindOf(p: Payload): Action
  {
    match p
    case SignData(_) => Sign
    case SignBeaconProposalData(_) => SignBeaconProposal
    case SignBeaconAttestationData(_) => SignBeaconAttestation
    case AccessAccountData(_) => AccessAccount
    case LockWalletData(_) => LockWallet
    case UnlockWalletData(_) => UnlockWallet
    case LockAccountData(_) => LockAccount
    case UnlockAccountData(_) => UnlockAccount
    case CreateAccountData(_) => CreateAccount
  }

  /** The nine hooks of the rule engine. */
  datatype Hook =
    | OnSign
    | OnSignBeaconProposal
    | OnSignBeaconAttestation
    | OnListAccounts
    | OnLockWallet
    | OnUnlockWallet
    | OnLockAccount
    | OnUnlockAccount
    | OnCreateAccount

  /** One entry of a batch. A nil payload is `None`. */
  datatype Request = Request(walletName: string, accountName: string, pubKey: seq<byte>, data: Option<Payload>)

  /** The caller's identity, shared by every request of a batch. */
  datatype Credentials = Credentials(client: string, ip: string)

  /** The context handed to a rule hook for one request. */
  datatype ReqMetadata = ReqMetadata(account: string, pubKey: seq<byte>, ip: string, client: string)

  /** The rule engine's decision logic, which lies outside this model: a hook
      name, the request metadata and the typed payload give a result. */
  type Hooks = (Hook, ReqMetadata, Payload) -> Result
}

/** Building the per-request context a rule hook receives. */
module Metadata {
  import opened Wrappers
  import opened Rules

  /** Why no context could be built: no credentials at all, or credentials
      without a client name. */
  datatype MetadataError = NoCredentials | NoClient

  /** The context for one request: the batch's credentials must be present and
      name a client; the account name and the raw public key come from the
      request. */
  function AssembleMetadata(credentials: Option<Credentials>, accountName: string, pubKey: seq<byte>)
    : (r: Outcome<ReqMetadata, MetadataError>)
    ensures r.Err? <==> credentials.None? || credentials.value.client == ""
    ensures credentials.None? ==> r == Err(NoCredentials)
    ensures credentials.Some? && credentials.value.client == "" ==> r == Err(NoClient)
    ensures r.Ok? ==> r.value.client != ""
    ensures r.Ok? ==> r.value.client == credentials.value.client && r.value.ip == credentials.value.ip
    ensures r.Ok? ==> r.value.account == accountName && r.value.pubKey == pubKey
  {
    if credentials.None? then
      Err(NoCredentials)
    else if credentials.value.client == "" then
      Err(NoClient)
    else
      Ok(ReqMetadata(accountName, pubKey, credentials.value.ip, credentials.value.client))
  }

  /** A metadata failure depends on the credentials alone, so it strikes every
      request of a batch alike, whatever their accounts and keys. */
  lemma MetadataFailureIsBatchWide(credentials: Option<Credentials>,
                                   account1: string, pubKey1: seq<byte>,
                                   account2: string, pubKey2: seq<byte>)
    ensures AssembleMetadata(credentials, account1, pubKey1).Err?
        <==> AssembleMetadata(credentials, account2, pubKey2).Err?
    ensures AssembleMetadata(credentials, account1, pubKey1).Err? ==>
              AssembleMetadata(credentials, account1, pubKey1) == AssembleMetadata(credentials, account2, pubKey2)
  {
  }
}

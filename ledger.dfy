/**
 * The ledger as the backend and the browser see it through the contract's read and
 * write entrypoints. A read whose key is missing from its map stands for a call that
 * reverts (an entrypoint the deployed contract does not have, or a failing lookup);
 * when no contract code is deployed at the configured address every call fails.
 * A write is described by what happens to the transaction sent to each entrypoint.
 */
module Ledger {
  import opened Wrappers

  /** The `properties(uint256)` / `getProperty(uint256)` tuple, reduced to the fields used here. */
  datatype Row = Row(id: nat, owner: string, ipfsHash: string, approvalCount: nat, status: nat)

  datatype Chain = Chain(
    deployed: bool,
    registrars: set<string>,
    hashToPropertyId: map<string, nat>,
    getProperty: map<nat, Row>,
    properties: map<nat, Row>,
    propertyCounter: Option<nat>,
    getOwner: map<string, string>,
    documentOwner: map<string, string>,
    verifyProperty: map<string, bool>,
    verifyHash: map<string, bool>)
  {
    function CallHashToPropertyId(hash: string): Option<nat> {
      if deployed && hash in hashToPropertyId then Some(hashToPropertyId[hash]) else None
    }

    function CallGetProperty(id: nat): Option<Row> {
      if deployed && id in getProperty then Some(getProperty[id]) else None
    }

    function CallProperties(id: nat): Option<Row> {
      if deployed && id in properties then Some(properties[id]) else None
    }

    function CallPropertyCounter(): Option<nat> {
      if deployed then propertyCounter else None
    }

    function CallGetOwner(hash: string): Option<string> {
      if deployed && hash in getOwner then Some(getOwner[hash]) else None
    }

    function CallDocumentOwner(hash: string): Option<string> {
      if deployed && hash in documentOwner then Some(documentOwner[hash]) else None
    }

    function CallVerifyProperty(hash: string): Option<bool> {
      if deployed && hash in verifyProperty then Some(verifyProperty[hash]) else None
    }

    function CallVerifyHash(hash: string): Option<bool> {
      if deployed && hash in verifyHash then Some(verifyHash[hash]) else None
    }
  }

  /** The three registration entrypoints, in the order both clients try them. */
  datatype Entrypoint = RequestRegistration | RegisterProperty | StoreHash {
    function Name(): string {
      match this
      case RequestRegistration => "requestRegistration"
      case RegisterProperty => "registerProperty"
      case StoreHash => "storeHash"
    }
  }

  const RegistrationOrder: seq<Entrypoint> := [RequestRegistration, RegisterProperty, StoreHash]

  /**
   * What sending a transaction to one entrypoint does: it is mined, it is refused
   * before a hash exists (the call reverts or the entrypoint is missing), or it is
   * sent but waiting for its receipt fails.
   */
  datatype Attempt = Mined(txHash: string) | SubmitFailed(message: string) | WaitFailed(txHash: string, message: string)

  /**
   * The outcome of the transaction sent to each registration entrypoint, given the
   * hash it carries: what the ledger does depends on the call sent, not on the caller.
   */
  datatype Writer = Writer(send: (Entrypoint, string) -> Attempt) {
    /** The transactions a registration of `hash` sends, in the order both clients try them. */
    function Attempts(hash: string): (a: seq<Attempt>)
      ensures |a| == 3
      ensures forall k :: 0 <= k < 3 ==> a[k] == send(RegistrationOrder[k], hash)
    {
      [send(RequestRegistration, hash), send(RegisterProperty, hash), send(StoreHash, hash)]
    }
  }
}

/**
 * The backend's ledger service: configuration checks, the write that records a
 * document hash (three registration entrypoints tried in order) and the two reads
 * the routes use (current owner and verification flag).
 */
module BlockchainService {
  import opened Wrappers
  import opened Text
  import opened Ledger

  /** The service's configuration after loading: a contract address ("" when unset) and a signing key. */
  datatype Config = Config(contractAddress: string, privateKey: Option<string>)

  /**
   * Loading the contract address at start-up: an unset or blank value means the ledger
   * is not configured, a malformed one stops the service, a well-formed one is kept
   * (in lower case here; the library's mixed-case checksum form is not computed).
   */
  function LoadContractAddress(raw: Option<string>): (r: Result<string, string>)
    ensures r.Ok? && r.value == "" <==> Blank(OrEmpty(raw))
    ensures r.Err? <==> !Blank(OrEmpty(raw)) && !IsAddress(Trim(OrEmpty(raw)))
    ensures r.Ok? && r.value != "" ==> IsAddress(Trim(OrEmpty(raw))) && r.value == Lower(Trim(OrEmpty(raw)))
  {
    var value := Trim(OrEmpty(raw));
    if value == "" then Ok("")
    else if !IsAddress(value) then
      Err("Invalid CONTRACT_ADDRESS format: \"" + value + "\". Expected 0x-prefixed 40-hex address.")
    else Ok(Lower(value))
  }

  function LoadConfig(rawAddress: Option<string>, privateKey: Option<string>): (r: Result<Config, string>)
    ensures r.Ok? <==> LoadContractAddress(rawAddress).Ok?
    ensures r.Ok? ==> r.value.contractAddress == LoadContractAddress(rawAddress).value && r.value.privateKey == privateKey
  {
    match LoadContractAddress(rawAddress)
    case Ok(address) => Ok(Config(address, privateKey))
    case Err(e) => Err(e)
  }

  /** `hasSignerConfig`: both the address and the key are present. */
  predicate HasSignerConfig(cfg: Config) {
    cfg.contractAddress != "" && Truthy(cfg.privateKey)
  }

  /** `hasReadConfig`: the address is present. */
  predicate HasReadConfig(cfg: Config) {
    cfg.contractAddress != ""
  }

  lemma SignerConfigImpliesReadConfig(cfg: Config)
    ensures HasSignerConfig(cfg) ==> HasReadConfig(cfg)
    ensures HasReadConfig(cfg) && Truthy(cfg.privateKey) ==> HasSignerConfig(cfg)
  {
  }

  /** `getReadContract`: refuses without an address or without code at it. */
  function ReadContract(cfg: Config, chain: Chain): (r: Result<Chain, string>)
    ensures r.Ok? <==> HasReadConfig(cfg) && chain.deployed
    ensures r.Ok? ==> r.value == chain
  {
    if !HasReadConfig(cfg) then Err("Blockchain read config missing. Set CONTRACT_ADDRESS.")
    else if !chain.deployed then Err("No contract deployed at " + cfg.contractAddress)
    else Ok(chain)
  }

  /** `getWriteContract`: refuses without signer configuration or without code at the address. */
  function WriteContract(cfg: Config, chain: Chain): (r: Result<Chain, string>)
    ensures r.Ok? <==> HasSignerConfig(cfg) && chain.deployed
    ensures r.Ok? ==> r.value == chain
  {
    if !HasSignerConfig(cfg) then
      Err("Blockchain signer config missing. Set CONTRACT_ADDRESS and BLOCKCHAIN_PRIVATE_KEY.")
    else if !chain.deployed then Err("No contract deployed at " + cfg.contractAddress)
    else Ok(chain)
  }

  /**
   * The attempt whose transaction was actually sent: the first one along `attempts`
   * whose submission did not fail, or the last one when every submission failed.
   */
  function FirstSubmitted(attempts: seq<Attempt>): (a: Attempt)
    requires |attempts| > 0
    ensures a in attempts
    ensures !a.SubmitFailed? ==>
      exists i :: 0 <= i < |attempts| && attempts[i] == a && (forall j :: 0 <= j < i ==> attempts[j].SubmitFailed?)
    ensures a.SubmitFailed? ==> a == attempts[|attempts| - 1] && forall j :: 0 <= j < |attempts| ==> attempts[j].SubmitFailed?
  {
    if |attempts| == 1 || !attempts[0].SubmitFailed? then attempts[0]
    else
      var a := FirstSubmitted(attempts[1..]);
      assert forall j :: 1 <= j < |attempts| ==> attempts[j] == attempts[1..][j - 1];
      a
  }

  lemma FirstSubmittedOfThree(a: Attempt, b: Attempt, c: Attempt)
    ensures FirstSubmitted([a, b, c]) ==
      if !a.SubmitFailed? then a else if !b.SubmitFailed? then b else c
  {
    assert [a, b, c][1..] == [b, c];
    assert [b, c][1..] == [c];
  }

  /** What `storeHashOnChain(hash)` returns or throws. */
  function StoreHashSpec(cfg: Config, chain: Chain, writer: Writer, hash: string): Result<string, string> {
    match WriteContract(cfg, chain)
    case Err(e) => Err(e)
    case Ok(_) =>
      match FirstSubmitted(writer.Attempts(hash))
      case Mined(h) => Ok(h)
      case SubmitFailed(m) => Err(m)
      case WaitFailed(_, m) => Err(m)
  }

  /**
   * `storeHashOnChain`: sends `hash` to `requestRegistration`, then `registerProperty`,
   * then `storeHash`, moving on only when sending fails; waits for the receipt of the
   * one that was sent.
   */
  method StoreHashOnChain(cfg: Config, chain: Chain, writer: Writer, hash: string) returns (r: Result<string, string>)
    ensures r == StoreHashSpec(cfg, chain, writer, hash)
  {
    var contract := WriteContract(cfg, chain);
    if contract.Err? {
      return Err(contract.error);
    }
    FirstSubmittedOfThree(writer.send(RequestRegistration, hash), writer.send(RegisterProperty, hash), writer.send(StoreHash, hash));
    var tx := writer.send(RequestRegistration, hash);
    if tx.SubmitFailed? {
      tx := writer.send(RegisterProperty, hash);
      if tx.SubmitFailed? {
        tx := writer.send(StoreHash, hash);
        if tx.SubmitFailed? {
          return Err(tx.message);
        }
      }
    }
    if tx.WaitFailed? {
      return Err(tx.message);
    }
    return Ok(tx.txHash);
  }

  /**
   * The fallback order: a write of `hash` succeeds with a transaction hash exactly when
   * some entrypoint's transaction carrying `hash` was mined with it and every entrypoint
   * before it refused the submission; a later entrypoint is never consulted once an
   * earlier one was sent.
   */
  lemma StoreHashOrder(cfg: Config, chain: Chain, writer: Writer, hash: string, h: string)
    requires HasSignerConfig(cfg) && chain.deployed
    ensures StoreHashSpec(cfg, chain, writer, hash) == Ok(h) <==>
      || writer.send(RequestRegistration, hash) == Mined(h)
      || (writer.send(RequestRegistration, hash).SubmitFailed? && writer.send(RegisterProperty, hash) == Mined(h))
      || (writer.send(RequestRegistration, hash).SubmitFailed? && writer.send(RegisterProperty, hash).SubmitFailed?
          && writer.send(StoreHash, hash) == Mined(h))
  {
    FirstSubmittedOfThree(writer.send(RequestRegistration, hash), writer.send(RegisterProperty, hash), writer.send(StoreHash, hash));
  }

  /**
   * Only the hash given is written: two ledgers that answer alike to the three
   * transactions carrying `hash` give the same result, whatever they would do with any
   * other hash.
   */
  lemma StoreHashWritesOnlyItsHash(cfg: Config, chain: Chain, w1: Writer, w2: Writer, hash: string)
    requires forall e :: w1.send(e, hash) == w2.send(e, hash)
    ensures StoreHashSpec(cfg, chain, w1, hash) == StoreHashSpec(cfg, chain, w2, hash)
  {
    assert w1.Attempts(hash) == w2.Attempts(hash);
  }

  /** A receipt failure of the transaction that was sent is reported, not retried. */
  lemma StoreHashWaitFailurePropagates(cfg: Config, chain: Chain, writer: Writer, hash: string, h: string, m: string)
    requires HasSignerConfig(cfg) && chain.deployed
    requires writer.send(RequestRegistration, hash) == WaitFailed(h, m)
    ensures StoreHashSpec(cfg, chain, writer, hash) == Err(m)
  {
    FirstSubmittedOfThree(writer.send(RequestRegistration, hash), writer.send(RegisterProperty, hash), writer.send(StoreHash, hash));
  }

  /** No write is attempted without signer configuration or deployed code. */
  lemma StoreHashNeedsSigner(cfg: Config, chain: Chain, writer: Writer, hash: string)
    requires !HasSignerConfig(cfg) || !chain.deployed
    ensures StoreHashSpec(cfg, chain, writer, hash).Err?
    ensures StoreHashSpec(cfg, chain, writer, hash) == Err(WriteContract(cfg, chain).error)
  {
  }

  /**
   * `getOwnerOnChain`: the owner the contract reports, the zero address when the
   * `getOwner` call itself fails; configuration and deployment failures are errors.
   */
  function GetOwnerOnChain(cfg: Config, chain: Chain, hash: string): (r: Result<string, string>)
    ensures r.Err? <==> !HasReadConfig(cfg) || !chain.deployed
    ensures r.Ok? ==> r.value == (if hash in chain.getOwner then chain.getOwner[hash] else ZeroAddress)
  {
    match ReadContract(cfg, chain)
    case Err(e) => Err(e)
    case Ok(c) => Ok(c.CallGetOwner(hash).GetOr(ZeroAddress))
  }

  /**
   * `getVerificationStatusOnChain`: `verifyProperty`, else `verifyHash`; when both
   * fail the failure propagates.
   */
  function GetVerificationStatusOnChain(cfg: Config, chain: Chain, hash: string): (r: Result<bool, string>)
    ensures r.Ok? <==> HasReadConfig(cfg) && chain.deployed && (hash in chain.verifyProperty || hash in chain.verifyHash)
    ensures r.Ok? && hash in chain.verifyProperty ==> r.value == chain.verifyProperty[hash]
    ensures r.Ok? && hash !in chain.verifyProperty ==> r.value == chain.verifyHash[hash]
  {
    match ReadContract(cfg, chain)
    case Err(e) => Err(e)
    case Ok(c) =>
      match c.CallVerifyProperty(hash)
      case Some(v) => Ok(v)
      case None =>
        match c.CallVerifyHash(hash)
        case Some(v) => Ok(v)
        case None => Err("execution reverted")
  }
}

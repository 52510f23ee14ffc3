/**
 * The reviewers' owner search: the ledger's owner of a hash, in lower case, and the
 * account linked to that wallet, with its Aadhaar number masked.
 */
module PropertyRoute {
  import opened Wrappers
  import opened Text
  import opened Ledger
  import opened BlockchainService
  import opened UserSchema
  import opened Database
  import FileRoutes

  /** The response body: the wallet, and the linked account's name, role and masked Aadhaar, or nulls. */
  datatype OwnerDetails = OwnerDetails(walletAddress: string, name: Option<string>, role: Option<string>, aadhaar: Option<string>)

  datatype OwnerOutcome =
    | OwnerForbidden
    | OwnerHashRequired
    | OwnerNotOnChain
    | OwnerLookupFailed
    | OwnerFound(details: OwnerDetails)
  {
    function StatusCode(): int {
      match this
      case OwnerForbidden => 403
      case OwnerHashRequired => 400
      case OwnerNotOnChain => 404
      case OwnerLookupFailed => 500
      case OwnerFound(_) => 200
    }
  }

  /** The details shown for an owner wallet and the account linked to it, if any. */
  function Details(owner: string, user: Option<User>): (d: OwnerDetails)
    ensures d.walletAddress == owner
    ensures user.None? ==> d.name == None && d.role == None && d.aadhaar == None
    ensures user.Some? ==> d.role == Some(user.value.role.Name())
    ensures d.aadhaar.Some? ==> |d.aadhaar.value| == 12 && forall k :: 0 <= k < 8 ==> d.aadhaar.value[k] == 'X'
  {
    match user
    case None => OwnerDetails(owner, None, None, MaskAadhaar(None))
    case Some(u) => OwnerDetails(owner, if u.name != "" then Some(u.name) else None, Some(u.role.Name()), MaskAadhaar(u.aadhaar))
  }

  /** GET /api/property/:hash; it reads and never writes. */
  function PropertyOwnerSpec(role: Option<string>, rawHash: string, cfg: Config, chain: Chain, users: seq<User>)
    : OwnerOutcome
  {
    if !FileRoutes.IsReviewerQuery(role) then OwnerForbidden
    else
      var hash := Trim(rawHash);
      if hash == "" then OwnerHashRequired
      else
        match GetOwnerOnChain(cfg, chain, hash)
        case Err(_) => OwnerLookupFailed
        case Ok(reported) =>
          var owner := Lower(reported);
          if owner == "" || owner == ZeroAddress then OwnerNotOnChain
          else
            match FindUserByWallet(users, owner)
            case None => OwnerFound(Details(owner, None))
            case Some(i) => OwnerFound(Details(owner, Some(users[i])))
  }

  /**
   * The search answers only reviewers; for them a blank hash is refused, and a found
   * owner is the ledger's owner in lower case, never empty nor the zero address, with
   * the first account linked to exactly that wallet, or nulls when there is none.
   */
  lemma PropertyOwnerShowsLedgerOwner(role: Option<string>, rawHash: string, cfg: Config, chain: Chain, users: seq<User>)
    ensures var r := PropertyOwnerSpec(role, rawHash, cfg, chain, users);
      && (r == OwnerForbidden <==> !FileRoutes.IsReviewerQuery(role))
      && (r == OwnerHashRequired <==> FileRoutes.IsReviewerQuery(role) && Trim(rawHash) == "")
      && (r.OwnerFound? ==>
            && GetOwnerOnChain(cfg, chain, Trim(rawHash)).Ok?
            && r.details.walletAddress == Lower(GetOwnerOnChain(cfg, chain, Trim(rawHash)).value)
            && r.details.walletAddress != "" && r.details.walletAddress != ZeroAddress
            && (r.details.role.None? <==>
                  forall j :: 0 <= j < |users| ==> users[j].walletAddress != Some(r.details.walletAddress)))
  {
  }

  /**
   * With the ledger unreachable or unconfigured the search fails with 500, and a hash
   * the ledger has no owner for is not found.
   */
  lemma PropertyOwnerLedgerFailures(role: Option<string>, rawHash: string, cfg: Config, chain: Chain, users: seq<User>)
    requires FileRoutes.IsReviewerQuery(role) && Trim(rawHash) != ""
    ensures !HasReadConfig(cfg) || !chain.deployed ==>
      PropertyOwnerSpec(role, rawHash, cfg, chain, users) == OwnerLookupFailed
    ensures HasReadConfig(cfg) && chain.deployed && Trim(rawHash) !in chain.getOwner ==>
      PropertyOwnerSpec(role, rawHash, cfg, chain, users) == OwnerNotOnChain
  {
    assert Lower(ZeroAddress) == ZeroAddress;
  }
}

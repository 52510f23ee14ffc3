/**
 * The ownership-transfer route: after the ledger transfer, the record follows the
 * ledger's owner and starts a new review epoch; an optional one-time code binds the
 * transfer to the buyer's wallet and is consumed once the record was updated.
 */
module OwnerTransfer {
  import opened Wrappers
  import opened Text
  import opened FileSchema
  import opened Workflow
  import opened Ledger
  import opened BlockchainService
  import opened Database
  import opened TransferCodes
  import FileRoutes

  datatype TransferRequest = TransferRequest(
    role: Option<string>,
    hash: Option<string>,
    newOwnerWallet: Option<string>,
    transferCode: Option<string>)

  datatype TransferOutcome =
    | TransferForbidden
    | FieldsRequired
    | CodeNotFound
    | CodeUsed
    | CodeExpired
    | CodeWalletMismatch
    | LedgerError(message: string)
    | LedgerOwnerMissing
    | LedgerOwnerMismatch(expected: string, found: string)
    | TransferDocumentNotFound
    | OwnerUpdated(file: PropertyRecord)
  {
    function StatusCode(): int {
      match this
      case TransferForbidden => 403
      case CodeNotFound | TransferDocumentNotFound => 404
      case LedgerError(_) => 500
      case OwnerUpdated(_) => 200
      case _ => 400
    }
  }

  /** The requested owner, trimmed and lower-cased. */
  function RequestedOwner(req: TransferRequest): string {
    Lower(Trim(OrEmpty(req.newOwnerWallet)))
  }

  /** The code given, trimmed and upper-cased ("" when none). */
  function RequestedCode(req: TransferRequest): string {
    Upper(Trim(OrEmpty(req.transferCode)))
  }

  /**
   * The code checks, made only when a code was given: unknown, then already used, then
   * expired, then bound to another wallet (compared in lower case).
   */
  function CheckCode(codes: map<string, TransferCode>, code: string, owner: string, now: int): (r: Option<TransferOutcome>)
    ensures r == Some(CodeNotFound) <==> code != "" && code !in codes
    ensures r == Some(CodeUsed) <==> code != "" && code in codes && codes[code].isUsed
    ensures r == Some(CodeExpired) <==> code != "" && code in codes && !codes[code].isUsed && Expired(codes[code], now)
    ensures r == Some(CodeWalletMismatch) <==>
      code != "" && code in codes && !codes[code].isUsed && !Expired(codes[code], now)
      && Lower(codes[code].walletAddress) != owner
    ensures r.None? <==>
      code == "" || (code in codes && !codes[code].isUsed && !Expired(codes[code], now)
                     && Lower(codes[code].walletAddress) == owner)
  {
    if code == "" then None
    else if code !in codes then Some(CodeNotFound)
    else if codes[code].isUsed then Some(CodeUsed)
    else if Expired(codes[code], now) then Some(CodeExpired)
    else if Lower(codes[code].walletAddress) != owner then Some(CodeWalletMismatch)
    else None
  }

  /**
   * The update the route applies: the ledger's owner, a fresh review (no decisions,
   * counts zero, pending, unverified, no chain push), one more transfer, at `now`.
   */
  function EpochReset(file: PropertyRecord, owner: string, now: int): PropertyRecord {
    file.(currentOwnerWallet := Some(owner), verified := false, verifiedAt := None, verifiedBy := None,
          workflowStatus := Pending, approvalCount := 0, rejectCount := 0, roleDecisions := EmptyDecisions,
          chainTxHash := None, chainPushedAt := None,
          transferCount := file.transferCount + 1, lastTransferAt := Some(now))
  }

  /** What a request that passed every check carries forward: the trimmed hash, the owner and the code. */
  datatype Approval = Approval(hash: string, owner: string, code: string)

  /**
   * The ledger check: the ledger must answer, with a real owner (not empty, not the zero
   * address), and that owner, trimmed and lower-cased, must be the requested one.
   */
  function CheckLedgerOwner(cfg: Config, chain: Chain, hash: string, owner: string): (r: Option<TransferOutcome>)
    ensures r.None? <==>
      && GetOwnerOnChain(cfg, chain, hash).Ok?
      && Lower(Trim(GetOwnerOnChain(cfg, chain, hash).value)) == owner
      && owner != "" && owner != ZeroAddress
    ensures r.Some? ==> (r.value.LedgerError? <==> GetOwnerOnChain(cfg, chain, hash).Err?)
  {
    match GetOwnerOnChain(cfg, chain, hash)
    case Err(m) => Some(LedgerError(m))
    case Ok(reported) =>
      var ownerOnChain := Lower(Trim(reported));
      if ownerOnChain == "" || ownerOnChain == ZeroAddress then Some(LedgerOwnerMissing)
      else if ownerOnChain != owner then Some(LedgerOwnerMismatch(owner, ownerOnChain))
      else None
  }

  /**
   * The checks of PATCH /api/files/transfer-owner, in order: the caller is a citizen,
   * hash and new owner are given, the code (if any) passes, and the ledger's owner is
   * the requested one.
   */
  function Authorize(codes: map<string, TransferCode>, req: TransferRequest, cfg: Config, chain: Chain, now: int)
    : (r: Result<Approval, TransferOutcome>)
    ensures r.Ok? <==>
      && FileRoutes.RequestRole(req.role) == "citizen" && Truthy(req.hash) && Truthy(req.newOwnerWallet)
      && CheckCode(codes, RequestedCode(req), RequestedOwner(req), now).None?
      && CheckLedgerOwner(cfg, chain, Trim(req.hash.value), RequestedOwner(req)).None?
    ensures r.Ok? ==> r.value == Approval(Trim(req.hash.value), RequestedOwner(req), RequestedCode(req))
  {
    if FileRoutes.RequestRole(req.role) != "citizen" then Err(TransferForbidden)
    else if !Truthy(req.hash) || !Truthy(req.newOwnerWallet) then Err(FieldsRequired)
    else
      var owner := RequestedOwner(req);
      var code := RequestedCode(req);
      match CheckCode(codes, code, owner, now)
      case Some(e) => Err(e)
      case None =>
        match CheckLedgerOwner(cfg, chain, Trim(req.hash.value), owner)
        case Some(e) => Err(e)
        case None => Ok(Approval(Trim(req.hash.value), owner, code))
  }

  datatype TransferResult = TransferResult(outcome: TransferOutcome, files: seq<PropertyRecord>, codes: map<string, TransferCode>)

  /**
   * The write of an approved transfer: the first record with the hash starts a new
   * epoch under the new owner, then the code (if any) is marked used.
   */
  function Commit(files: seq<PropertyRecord>, codes: map<string, TransferCode>, a: Approval, now: int): (r: TransferResult)
    requires a.code != "" ==> a.code in codes
    ensures r.outcome.OwnerUpdated? || r.outcome == TransferDocumentNotFound
    ensures r.outcome.OwnerUpdated? <==> FindFile(files, a.hash).Some?
    ensures !r.outcome.OwnerUpdated? ==> r.files == files && r.codes == codes
  {
    match FindFile(files, a.hash)
    case None => TransferResult(TransferDocumentNotFound, files, codes)
    case Some(i) =>
      var updated := EpochReset(files[i], a.owner, now);
      TransferResult(OwnerUpdated(updated), files[i := updated],
                     if a.code != "" then codes[a.code := MarkUsed(codes[a.code], now)] else codes)
  }

  /** The response of PATCH /api/files/transfer-owner and the records and codes stored afterwards. */
  function TransferSpec(files: seq<PropertyRecord>, codes: map<string, TransferCode>, req: TransferRequest,
                        cfg: Config, chain: Chain, now: int): TransferResult
  {
    match Authorize(codes, req, cfg, chain, now)
    case Err(e) => TransferResult(e, files, codes)
    case Ok(a) => Commit(files, codes, a, now)
  }

  /** Marking a code used keeps every code under its own value. */
  lemma MarkUsedKeepsKeys(codes: map<string, TransferCode>, code: string, now: int)
    requires KeyedByCode(codes) && code in codes
    ensures KeyedByCode(codes[code := MarkUsed(codes[code], now)])
  {
  }

  /** The checks of the route, in the route's order. */
  method AuthorizeTransfer(codes: map<string, TransferCode>, req: TransferRequest, cfg: Config, chain: Chain, now: int)
    returns (r: Result<Approval, TransferOutcome>)
    ensures r == Authorize(codes, req, cfg, chain, now)
  {
    if FileRoutes.RequestRole(req.role) != "citizen" {
      return Err(TransferForbidden);
    }
    if !Truthy(req.hash) || !Truthy(req.newOwnerWallet) {
      return Err(FieldsRequired);
    }
    var normalizedOwner := RequestedOwner(req);
    var normalizedCode := RequestedCode(req);
    if normalizedCode != "" {
      if normalizedCode !in codes {
        return Err(CodeNotFound);
      }
      var codeDoc := codes[normalizedCode];
      if codeDoc.isUsed {
        return Err(CodeUsed);
      }
      if Expired(codeDoc, now) {
        return Err(CodeExpired);
      }
      if Lower(codeDoc.walletAddress) != normalizedOwner {
        return Err(CodeWalletMismatch);
      }
    }
    assert CheckCode(codes, normalizedCode, normalizedOwner, now).None?;
    var reported := GetOwnerOnChain(cfg, chain, Trim(req.hash.value));
    if reported.Err? {
      return Err(LedgerError(reported.error));
    }
    var ownerOnChain := Lower(Trim(reported.value));
    if ownerOnChain == "" || ownerOnChain == ZeroAddress {
      return Err(LedgerOwnerMissing);
    }
    if ownerOnChain != normalizedOwner {
      return Err(LedgerOwnerMismatch(normalizedOwner, ownerOnChain));
    }
    r := Ok(Approval(Trim(req.hash.value), normalizedOwner, normalizedCode));
  }

  /** The write of an approved transfer: the record update, then the code. */
  method CommitTransfer(db: Db, a: Approval, now: int) returns (outcome: TransferOutcome)
    requires db.Valid() && (a.code != "" ==> a.code in db.codes)
    modifies db
    ensures TransferResult(outcome, db.files, db.codes) == Commit(old(db.files), old(db.codes), a, now)
    ensures db.users == old(db.users)
    ensures db.Valid()
  {
    var found := FindFile(db.files, a.hash);
    if found.None? {
      return TransferDocumentNotFound;
    }
    var updated := EpochReset(db.files[found.value], a.owner, now);
    db.files := db.files[found.value := updated];
    if a.code != "" {
      MarkUsedKeepsKeys(db.codes, a.code, now);
      db.codes := db.codes[a.code := MarkUsed(db.codes[a.code], now)];
    }
    outcome := OwnerUpdated(updated);
  }

  /** PATCH /api/files/transfer-owner */
  method TransferOwner(db: Db, req: TransferRequest, cfg: Config, chain: Chain, now: int) returns (outcome: TransferOutcome)
    requires db.Valid()
    modifies db
    ensures TransferResult(outcome, db.files, db.codes) == TransferSpec(old(db.files), old(db.codes), req, cfg, chain, now)
    ensures db.users == old(db.users)
    ensures db.Valid()
  {
    var approval := AuthorizeTransfer(db.codes, req, cfg, chain, now);
    if approval.Err? {
      return approval.error;
    }
    outcome := CommitTransfer(db, approval.value, now);
  }

  /** Nothing is written, neither record nor code, unless the owner was updated. */
  lemma TransferFailureWritesNothing(files: seq<PropertyRecord>, codes: map<string, TransferCode>, req: TransferRequest,
                                     cfg: Config, chain: Chain, now: int)
    ensures var r := TransferSpec(files, codes, req, cfg, chain, now);
      !r.outcome.OwnerUpdated? ==> r.files == files && r.codes == codes
  {
    match Authorize(codes, req, cfg, chain, now)
    case Err(_) =>
    case Ok(a) =>
  }

  /**
   * A code that is both used and expired is reported as used: the used check comes
   * first, so the expiry is never reported for a used code.
   */
  lemma UsedReportedBeforeExpired(files: seq<PropertyRecord>, codes: map<string, TransferCode>, req: TransferRequest,
                                  cfg: Config, chain: Chain, now: int)
    requires FileRoutes.RequestRole(req.role) == "citizen" && Truthy(req.hash) && Truthy(req.newOwnerWallet)
    requires RequestedCode(req) != "" && RequestedCode(req) in codes
    requires codes[RequestedCode(req)].isUsed && Expired(codes[RequestedCode(req)], now)
    ensures TransferSpec(files, codes, req, cfg, chain, now).outcome == CodeUsed
  {
  }

  /**
   * A successful transfer trusts only the ledger: the ledger answered for the trimmed
   * hash with a real owner which, trimmed and lower-cased, is the requested owner.
   */
  lemma TransferFollowsLedger(files: seq<PropertyRecord>, codes: map<string, TransferCode>, req: TransferRequest,
                              cfg: Config, chain: Chain, now: int)
    requires TransferSpec(files, codes, req, cfg, chain, now).outcome.OwnerUpdated?
    ensures Truthy(req.hash) && GetOwnerOnChain(cfg, chain, Trim(req.hash.value)).Ok?
    ensures Lower(Trim(GetOwnerOnChain(cfg, chain, Trim(req.hash.value)).value)) == RequestedOwner(req)
    ensures RequestedOwner(req) != "" && RequestedOwner(req) != ZeroAddress
    ensures CheckCode(codes, RequestedCode(req), RequestedOwner(req), now).None?
  {
    assert Authorize(codes, req, cfg, chain, now).Ok?;
  }

  /**
   * A successful transfer rewrites the first record with the hash and nothing else: it
   * carries the requested owner, one more transfer at `now`, and starts a new review
   * epoch (no decision in any slot, pending, counts zero, unverified, no chain push),
   * which is consistent; a given code is marked used and no other code changes.
   */
  lemma TransferResetsEpoch(files: seq<PropertyRecord>, codes: map<string, TransferCode>, req: TransferRequest,
                            cfg: Config, chain: Chain, now: int)
    requires TransferSpec(files, codes, req, cfg, chain, now).outcome.OwnerUpdated?
    ensures Truthy(req.hash) && FindFile(files, Trim(req.hash.value)).Some?
    ensures var r := TransferSpec(files, codes, req, cfg, chain, now);
      var i := FindFile(files, Trim(req.hash.value)).value;
      var f := r.outcome.file;
      && r.files == files[i := f]
      && f.userId == files[i].userId && f.ipfshash == files[i].ipfshash && f.filename == files[i].filename
      && f.currentOwnerWallet == Some(RequestedOwner(req))
      && f.transferCount == files[i].transferCount + 1 && f.lastTransferAt == Some(now)
      && (forall role :: f.roleDecisions.Get(role) == NoDecision)
      && f.workflowStatus == Pending && f.approvalCount == 0 && f.rejectCount == 0
      && !f.verified && f.verifiedAt == None && f.verifiedBy == None
      && f.chainTxHash == None && f.chainPushedAt == None
      && Consistent(f)
    ensures var r := TransferSpec(files, codes, req, cfg, chain, now);
      && (RequestedCode(req) == "" ==> r.codes == codes)
      && (RequestedCode(req) != "" ==>
            RequestedCode(req) in codes && r.codes == codes[RequestedCode(req) := MarkUsed(codes[RequestedCode(req)], now)])
  {
    var a := Authorize(codes, req, cfg, chain, now).value;
    assert a == Approval(Trim(req.hash.value), RequestedOwner(req), RequestedCode(req));
    assert TransferSpec(files, codes, req, cfg, chain, now) == Commit(files, codes, a, now);
    var i := FindFile(files, a.hash).value;
    var f := EpochReset(files[i], a.owner, now);
    assert Commit(files, codes, a, now).outcome.file == f;
    FreshReviewConsistent(f);
    forall role ensures f.roleDecisions.Get(role) == NoDecision {
      EmptyDecisionsAreEmpty(role);
    }
  }

  /** A code redeems one transfer: a second request with the same code is refused as used. */
  lemma TransferCodeSingleUse(files: seq<PropertyRecord>, codes: map<string, TransferCode>, req: TransferRequest,
                              cfg: Config, chain: Chain, now: int,
                              again: TransferRequest, cfg2: Config, chain2: Chain, later: int)
    requires TransferSpec(files, codes, req, cfg, chain, now).outcome.OwnerUpdated? && RequestedCode(req) != ""
    requires FileRoutes.RequestRole(again.role) == "citizen" && Truthy(again.hash) && Truthy(again.newOwnerWallet)
    requires RequestedCode(again) == RequestedCode(req)
    ensures var r := TransferSpec(files, codes, req, cfg, chain, now);
      TransferSpec(r.files, r.codes, again, cfg2, chain2, later).outcome == CodeUsed
  {
    TransferFollowsLedger(files, codes, req, cfg, chain, now);
    TransferResetsEpoch(files, codes, req, cfg, chain, now);
  }
}

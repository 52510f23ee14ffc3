/**
 * The public authenticity check: a hash known to the store is "Authentic" and its
 * record is first refreshed from the ledger (owner and verified flag, best effort);
 * an unknown hash is reported as not found or tampered.
 */
module VerifyRoute {
  import opened Wrappers
  import opened Text
  import opened FileSchema
  import opened Ledger
  import opened BlockchainService
  import opened Database

  datatype VerifyResponse =
    | Authentic(owner: string, currentOwnerWallet: Option<string>, verified: bool)
    | NotFoundOrTampered

  /**
   * The refresh of one record from the ledger's answers: a real owner (not empty, not
   * the zero address) replaces the stored one; the verified flag is copied; a verified
   * record keeps its verification time or gets `now`, an unverified one loses it.
   */
  function Refresh(doc: PropertyRecord, owner: string, verified: bool, now: int): (r: PropertyRecord)
    ensures r.verified == verified
    ensures verified ==> r.verifiedAt == (if doc.verifiedAt.Some? then doc.verifiedAt else Some(now))
    ensures !verified ==> r.verifiedAt == None
    ensures r.currentOwnerWallet == (if owner != "" && owner != ZeroAddress then Some(owner) else doc.currentOwnerWallet)
    ensures r == doc.(currentOwnerWallet := r.currentOwnerWallet, verified := r.verified, verifiedAt := r.verifiedAt)
  {
    var withOwner := if owner != "" && owner != ZeroAddress then doc.(currentOwnerWallet := Some(owner)) else doc;
    withOwner.(verified := verified, verifiedAt := if verified then (if doc.verifiedAt.Some? then doc.verifiedAt else Some(now)) else None)
  }

  datatype VerifyResult = VerifyResult(response: VerifyResponse, files: seq<PropertyRecord>)

  /**
   * POST /api/verify: the first record with the hash is refreshed and saved when the
   * ledger is configured and both reads succeed; otherwise it is left as stored. The
   * response reports the uploader, the current owner (null when unset) and the flag.
   */
  function VerifySpec(files: seq<PropertyRecord>, hash: string, cfg: Config, chain: Chain, now: int): VerifyResult {
    match FindFile(files, hash)
    case None => VerifyResult(NotFoundOrTampered, files)
    case Some(i) =>
      var doc := files[i];
      var owner := GetOwnerOnChain(cfg, chain, hash);
      var verified := GetVerificationStatusOnChain(cfg, chain, hash);
      if HasReadConfig(cfg) && owner.Ok? && verified.Ok? then
        var refreshed := Refresh(doc, owner.value, verified.value, now);
        VerifyResult(Authentic(doc.userId, OrNull(refreshed.currentOwnerWallet), refreshed.verified), files[i := refreshed])
      else
        VerifyResult(Authentic(doc.userId, OrNull(doc.currentOwnerWallet), doc.verified), files)
  }

  /** POST /api/verify */
  method VerifyPost(db: Db, hash: string, cfg: Config, chain: Chain, now: int) returns (response: VerifyResponse)
    requires db.Valid()
    modifies db
    ensures VerifyResult(response, db.files) == VerifySpec(old(db.files), hash, cfg, chain, now)
    ensures db.codes == old(db.codes) && db.users == old(db.users)
    ensures db.Valid()
  {
    var found := FindFile(db.files, hash);
    if found.None? {
      return NotFoundOrTampered;
    }
    var existing := db.files[found.value];
    if HasReadConfig(cfg) {
      var owner := GetOwnerOnChain(cfg, chain, hash);
      var verified := GetVerificationStatusOnChain(cfg, chain, hash);
      if owner.Ok? && verified.Ok? {
        if owner.value != "" && owner.value != ZeroAddress {
          existing := existing.(currentOwnerWallet := Some(owner.value));
        }
        existing := existing.(verified := verified.value,
                              verifiedAt := if verified.value then (if existing.verifiedAt.Some? then existing.verifiedAt else Some(now)) else None);
        db.files := db.files[found.value := existing];
      }
    }
    response := Authentic(existing.userId, OrNull(existing.currentOwnerWallet), existing.verified);
  }

  /**
   * The check touches at most the first record with the hash, and in it only the owner,
   * the verified flag and the verification time: it never counts a transfer and never
   * changes the review state; an unknown hash writes nothing.
   */
  lemma VerifyTouchesOnlyLedgerFields(files: seq<PropertyRecord>, hash: string, cfg: Config, chain: Chain, now: int)
    ensures var r := VerifySpec(files, hash, cfg, chain, now);
      && |r.files| == |files|
      && (FindFile(files, hash).None? ==> r.response == NotFoundOrTampered && r.files == files)
      && (forall j :: 0 <= j < |files| && Some(j) != FindFile(files, hash) ==> r.files[j] == files[j])
      && (forall j :: 0 <= j < |files| ==>
            r.files[j] == files[j].(currentOwnerWallet := r.files[j].currentOwnerWallet,
                                    verified := r.files[j].verified, verifiedAt := r.files[j].verifiedAt))
  {
    match FindFile(files, hash)
    case None =>
    case Some(i) =>
  }

  /**
   * A refreshed owner comes only from the ledger, and only when it is real; the stored
   * flag is the ledger's, with a verification time exactly when verified.
   */
  lemma VerifyFollowsLedger(files: seq<PropertyRecord>, hash: string, cfg: Config, chain: Chain, now: int)
    requires FindFile(files, hash).Some?
    requires HasReadConfig(cfg) && chain.deployed
    requires hash in chain.verifyProperty || hash in chain.verifyHash
    ensures var i := FindFile(files, hash).value;
      var f := VerifySpec(files, hash, cfg, chain, now).files[i];
      var owner := GetOwnerOnChain(cfg, chain, hash).value;
      && f.verified == GetVerificationStatusOnChain(cfg, chain, hash).value
      && (f.verified <==> f.verifiedAt.Some?)
      && (f.currentOwnerWallet != files[i].currentOwnerWallet ==>
            f.currentOwnerWallet == Some(owner) && owner != "" && owner != ZeroAddress)
      && f.transferCount == files[i].transferCount && f.lastTransferAt == files[i].lastTransferAt
  {
  }

  /**
   * Without ledger configuration, or when a ledger read fails, the check only reports
   * the stored record.
   */
  lemma VerifyFallsBackToStore(files: seq<PropertyRecord>, hash: string, cfg: Config, chain: Chain, now: int)
    requires FindFile(files, hash).Some?
    requires !HasReadConfig(cfg) || !chain.deployed || (hash !in chain.verifyProperty && hash !in chain.verifyHash)
    ensures var doc := files[FindFile(files, hash).value];
      VerifySpec(files, hash, cfg, chain, now) ==
        VerifyResult(Authentic(doc.userId, OrNull(doc.currentOwnerWallet), doc.verified), files)
  {
  }
}

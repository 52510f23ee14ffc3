/**
 * The record listings: the best-effort copy of the ledger's owner and verification
 * flag into a record, the reviewers' listing of every record (synchronised and
 * reconciled) and a citizen's listing of the records uploaded by or owned by them.
 */
module FileRoutes {
  import opened Wrappers
  import opened Text
  import opened FileSchema
  import opened Workflow
  import opened Ledger
  import opened BlockchainService
  import opened Database
  import UserSchema

  /** `String(role || "").toLowerCase()`, the role a request names. */
  function RequestRole(role: Option<string>): string {
    Lower(OrEmpty(role))
  }

  /** The reviewers' listing accepts the three reviewer roles, in lower case. */
  predicate IsReviewerQuery(role: Option<string>) {
    RequestRole(role) in {"registrar", "notary", "localauthority"}
  }

  // ---------------------------------------------------------------- ledger sync

  /** The record after a sync, and whether the sync saved it. */
  datatype SyncResult = SyncResult(doc: PropertyRecord, saved: bool)

  /** The owner the ledger reports replaces the stored one (exact string comparison). */
  predicate AdoptsOwner(doc: PropertyRecord, owner: string) {
    owner != "" && owner != ZeroAddress && doc.currentOwnerWallet != Some(owner)
  }

  /** The stored owner, trimmed and lower-cased, is a real address rather than empty or zero. */
  predicate HasPreviousRealOwner(doc: PropertyRecord) {
    var previous := Lower(Trim(OrEmpty(doc.currentOwnerWallet)));
    previous != "" && previous != ZeroAddress
  }

  /** The owner step: the new owner is stored, and a transfer is counted when there was a real previous owner. */
  function AdoptOwner(doc: PropertyRecord, owner: string, now: int): PropertyRecord {
    if HasPreviousRealOwner(doc) then
      doc.(currentOwnerWallet := Some(owner), lastTransferAt := Some(now), transferCount := doc.transferCount + 1)
    else doc.(currentOwnerWallet := Some(owner))
  }

  /** The verification step: the flag is copied, the time stamped on first verification and cleared when unverified. */
  function AdoptVerified(doc: PropertyRecord, verified: bool, now: int): PropertyRecord {
    doc.(verified := verified,
         verifiedAt := if !verified then None else if doc.verifiedAt.None? then Some(now) else doc.verifiedAt)
  }

  /**
   * What the sync does with the owner and the flag the ledger reported: it adopts a
   * non-zero owner that differs from the stored one and a differing flag, and saves
   * when it adopted either.
   */
  function ApplyLedger(doc: PropertyRecord, owner: string, verified: bool, now: int): SyncResult {
    var d1 := if AdoptsOwner(doc, owner) then AdoptOwner(doc, owner, now) else doc;
    var d2 := if verified != doc.verified then AdoptVerified(d1, verified, now) else d1;
    SyncResult(d2, AdoptsOwner(doc, owner) || verified != doc.verified)
  }

  /**
   * What `syncFileWithChain` does with a record: without read configuration, or when
   * either ledger read fails, nothing; otherwise it applies what the ledger reported.
   */
  function SyncSpec(doc: PropertyRecord, cfg: Config, chain: Chain, now: int): SyncResult {
    if !HasReadConfig(cfg) then SyncResult(doc, false)
    else
      var owner := GetOwnerOnChain(cfg, chain, doc.ipfshash);
      var verified := GetVerificationStatusOnChain(cfg, chain, doc.ipfshash);
      if owner.Err? || verified.Err? then SyncResult(doc, false)
      else ApplyLedger(doc, owner.value, verified.value, now)
  }

  /** The owner block of `syncFileWithChain`. */
  method SyncOwner(doc: PropertyRecord, owner: string, now: int) returns (synced: PropertyRecord, changed: bool)
    ensures changed == AdoptsOwner(doc, owner)
    ensures synced == if changed then AdoptOwner(doc, owner, now) else doc
  {
    synced, changed := doc, false;
    var ownerWallet := if owner != "" && owner != ZeroAddress then Some(owner) else doc.currentOwnerWallet;
    var hasPreviousRealOwner := HasPreviousRealOwner(doc);
    if Truthy(ownerWallet) && ownerWallet != synced.currentOwnerWallet {
      synced := synced.(currentOwnerWallet := ownerWallet);
      if hasPreviousRealOwner {
        synced := synced.(lastTransferAt := Some(now), transferCount := synced.transferCount + 1);
      }
      changed := true;
    }
  }

  /** The verification block of `syncFileWithChain`. */
  method SyncVerified(doc: PropertyRecord, verified: bool, now: int) returns (synced: PropertyRecord, changed: bool)
    ensures changed == (verified != doc.verified)
    ensures synced == if changed then AdoptVerified(doc, verified, now) else doc
  {
    synced, changed := doc, false;
    if verified != synced.verified {
      synced := synced.(verified := verified);
      if verified && synced.verifiedAt.None? {
        synced := synced.(verifiedAt := Some(now));
      }
      if !verified {
        synced := synced.(verifiedAt := None);
      }
      changed := true;
    }
  }

  /** `syncFileWithChain`: both ledger reads, then the owner block and the verification block. */
  method SyncFileWithChain(doc: PropertyRecord, cfg: Config, chain: Chain, now: int)
    returns (synced: PropertyRecord, saved: bool)
    ensures SyncResult(synced, saved) == SyncSpec(doc, cfg, chain, now)
  {
    synced, saved := doc, false;
    if !HasReadConfig(cfg) {
      return;
    }
    var owner := GetOwnerOnChain(cfg, chain, doc.ipfshash);
    var verified := GetVerificationStatusOnChain(cfg, chain, doc.ipfshash);
    if owner.Err? || verified.Err? {
      return;
    }
    var ownerChanged, verifiedChanged;
    synced, ownerChanged := SyncOwner(doc, owner.value, now);
    synced, verifiedChanged := SyncVerified(synced, verified.value, now);
    saved := ownerChanged || verifiedChanged;
  }

  /** A sync saves exactly when it changed the record. */
  lemma SyncSavesIffChanged(doc: PropertyRecord, owner: string, verified: bool, now: int)
    ensures var s := ApplyLedger(doc, owner, verified, now);
      s.saved <==> s.doc != doc
  {
    var s := ApplyLedger(doc, owner, verified, now);
    if AdoptsOwner(doc, owner) {
      assert s.doc.currentOwnerWallet != doc.currentOwnerWallet;
    } else if verified != doc.verified {
      assert s.doc.verified != doc.verified;
    }
  }

  /** A sync never touches the review state, the chain-push fields or the identity of a record. */
  lemma SyncKeepsReviewState(doc: PropertyRecord, owner: string, verified: bool, now: int)
    ensures var s := ApplyLedger(doc, owner, verified, now).doc;
      && s.userId == doc.userId && s.filename == doc.filename && s.ipfshash == doc.ipfshash
      && s.uploadedAt == doc.uploadedAt
      && s.roleDecisions == doc.roleDecisions && s.workflowStatus == doc.workflowStatus
      && s.approvalCount == doc.approvalCount && s.rejectCount == doc.rejectCount
      && s.verifiedBy == doc.verifiedBy && s.chainTxHash == doc.chainTxHash && s.chainPushedAt == doc.chainPushedAt
  {
  }

  /** Without read configuration, without deployed code, or when the verification read fails, the record is left as it is. */
  lemma SyncErrorsChangeNothing(doc: PropertyRecord, cfg: Config, chain: Chain, now: int)
    requires !HasReadConfig(cfg) || !chain.deployed
      || GetVerificationStatusOnChain(cfg, chain, doc.ipfshash).Err?
    ensures SyncSpec(doc, cfg, chain, now) == SyncResult(doc, false)
  {
  }

  /** A sync keeps the uploader and the hash of a record. */
  lemma SyncKeepsIdentity(doc: PropertyRecord, cfg: Config, chain: Chain, now: int)
    ensures SyncSpec(doc, cfg, chain, now).doc.userId == doc.userId
    ensures SyncSpec(doc, cfg, chain, now).doc.ipfshash == doc.ipfshash
  {
    if HasReadConfig(cfg) {
      var owner := GetOwnerOnChain(cfg, chain, doc.ipfshash);
      var verified := GetVerificationStatusOnChain(cfg, chain, doc.ipfshash);
      if owner.Ok? && verified.Ok? {
        SyncKeepsReviewState(doc, owner.value, verified.value, now);
      }
    }
  }

  /** A sync that does not save leaves the record as it was. */
  lemma SyncUnsavedUnchanged(doc: PropertyRecord, cfg: Config, chain: Chain, now: int)
    ensures !SyncSpec(doc, cfg, chain, now).saved ==> SyncSpec(doc, cfg, chain, now).doc == doc
  {
    if HasReadConfig(cfg) {
      var owner := GetOwnerOnChain(cfg, chain, doc.ipfshash);
      var verified := GetVerificationStatusOnChain(cfg, chain, doc.ipfshash);
      if owner.Ok? && verified.Ok? {
        SyncSavesIffChanged(doc, owner.value, verified.value, now);
      }
    }
  }

  /**
   * After a sync the record carries the ledger's verification flag and, unless the
   * ledger reports no owner or the zero address, the ledger's owner; otherwise the
   * stored owner stays. A transfer is counted exactly when the owner was replaced and
   * the previous owner was a real address.
   */
  lemma SyncFollowsLedger(doc: PropertyRecord, owner: string, verified: bool, now: int)
    ensures var s := ApplyLedger(doc, owner, verified, now).doc;
      && s.verified == verified
      && (owner != "" && owner != ZeroAddress ==> s.currentOwnerWallet == Some(owner))
      && (owner == "" || owner == ZeroAddress ==> s.currentOwnerWallet == doc.currentOwnerWallet)
      && s.transferCount == doc.transferCount + (if AdoptsOwner(doc, owner) && HasPreviousRealOwner(doc) then 1 else 0)
      && (s.transferCount != doc.transferCount ==> s.lastTransferAt == Some(now))
      && (verified != doc.verified && !verified ==> s.verifiedAt == None)
      && (verified && !doc.verified && doc.verifiedAt.None? ==> s.verifiedAt == Some(now))
      && (verified == doc.verified ==> s.verifiedAt == doc.verifiedAt)
  {
  }

  /** A second sync against the same ledger state finds nothing to change. */
  lemma SyncIdempotent(doc: PropertyRecord, cfg: Config, chain: Chain, now: int, later: int)
    ensures var s := SyncSpec(doc, cfg, chain, now).doc;
      SyncSpec(s, cfg, chain, later) == SyncResult(s, false)
  {
    var s := SyncSpec(doc, cfg, chain, now);
    if HasReadConfig(cfg) {
      var owner := GetOwnerOnChain(cfg, chain, doc.ipfshash);
      var verified := GetVerificationStatusOnChain(cfg, chain, doc.ipfshash);
      if owner.Ok? && verified.Ok? {
        SyncKeepsReviewState(doc, owner.value, verified.value, now);
        SyncFollowsLedger(doc, owner.value, verified.value, now);
        assert !AdoptsOwner(s.doc, owner.value);
      }
    }
  }

  /**
   * The owner comparison is case-sensitive although the ownership-transfer route stores
   * the owner in lower case: when the ledger reports the same address in mixed case, the
   * sync replaces the stored owner with it and counts a transfer that did not happen.
   */
  lemma SyncCountsCaseChangeAsTransfer(doc: PropertyRecord, owner: string, verified: bool, now: int)
    requires IsAddress(owner) && Lower(owner) != owner && Lower(owner) != ZeroAddress
    requires doc.currentOwnerWallet == Some(Lower(owner))
    ensures ApplyLedger(doc, owner, verified, now).saved
    ensures ApplyLedger(doc, owner, verified, now).doc.transferCount == doc.transferCount + 1
    ensures ApplyLedger(doc, owner, verified, now).doc.currentOwnerWallet == Some(owner)
  {
    LoweredAddressIsReal(owner);
    assert OrEmpty(doc.currentOwnerWallet) == Lower(owner);
    assert |Lower(owner)| == 42;
    assert HasPreviousRealOwner(doc);
    assert AdoptsOwner(doc, owner);
    var d1 := AdoptOwner(doc, owner, now);
    assert d1.transferCount == doc.transferCount + 1 && d1.currentOwnerWallet == Some(owner);
  }

  /** A lower-cased address is its own trimmed, lower-cased form, and is zero only if the address is. */
  lemma LoweredAddressIsReal(owner: string)
    requires IsAddress(owner) && Lower(owner) != ZeroAddress
    ensures Lower(Trim(Lower(owner))) == Lower(owner)
    ensures owner != ZeroAddress && owner != ""
  {
    var lowered := Lower(owner);
    assert lowered[0] == '0' && !IsSpace(lowered[|lowered| - 1]);
    assert Trim(lowered) == lowered;
    LowerIdempotent(owner);
  }

  // ---------------------------------------------------------------- GET /api/files

  /** One listed record: the reconciled record in the response, and what the store then holds. */
  datatype ListEntryResult = ListEntryResult(shown: PropertyRecord, stored: PropertyRecord)

  /**
   * A record in the reviewers' listing is synchronised, then reconciled; the reconciled
   * record is saved when its status, counts or verification flag differ from the
   * synchronised one, otherwise the store keeps what the sync saved (if anything).
   */
  function ListEntry(doc: PropertyRecord, cfg: Config, chain: Chain, now: int): ListEntryResult {
    var s := SyncSpec(doc, cfg, chain, now);
    var reconciled := Reconcile(s.doc);
    var changed :=
      || s.doc.workflowStatus != reconciled.workflowStatus
      || s.doc.approvalCount != reconciled.approvalCount
      || s.doc.rejectCount != reconciled.rejectCount
      || s.doc.verified != reconciled.verified;
    ListEntryResult(reconciled, if changed then reconciled else if s.saved then s.doc else doc)
  }

  datatype ListOutcome = ListForbidden | Listed(files: seq<PropertyRecord>) {
    function StatusCode(): int {
      if ListForbidden? then 403 else 200
    }
  }

  /** The response of GET /api/files and the records stored afterwards. */
  function ListSpec(files: seq<PropertyRecord>, role: Option<string>, cfg: Config, chain: Chain, now: int)
    : (ListOutcome, seq<PropertyRecord>)
  {
    if !IsReviewerQuery(role) then (ListForbidden, files)
    else
      (Listed(seq(|files|, i requires 0 <= i < |files| => ListEntry(files[i], cfg, chain, now).shown)),
       seq(|files|, i requires 0 <= i < |files| => ListEntry(files[i], cfg, chain, now).stored))
  }

  /** GET /api/files: reviewers only; every record is synchronised, reconciled and saved if changed. */
  method ListFiles(db: Db, role: Option<string>, cfg: Config, chain: Chain, now: int) returns (outcome: ListOutcome)
    modifies db
    ensures (outcome, db.files) == ListSpec(old(db.files), role, cfg, chain, now)
    ensures db.codes == old(db.codes) && db.users == old(db.users)
  {
    if !IsReviewerQuery(role) {
      return ListForbidden;
    }
    var shown := ReconcileStored(db, cfg, chain, now);
    outcome := Listed(shown);
  }

  /** The reviewers' listing loop: every record in turn goes through the listing's step. */
  method ReconcileStored(db: Db, cfg: Config, chain: Chain, now: int) returns (shown: seq<PropertyRecord>)
    modifies db
    ensures shown == seq(|old(db.files)|, k requires 0 <= k < |old(db.files)| => ListEntry(old(db.files)[k], cfg, chain, now).shown)
    ensures db.files == seq(|old(db.files)|, k requires 0 <= k < |old(db.files)| => ListEntry(old(db.files)[k], cfg, chain, now).stored)
    ensures db.codes == old(db.codes) && db.users == old(db.users)
  {
    var files := db.files;
    ghost var shownAll := seq(|files|, k requires 0 <= k < |files| => ListEntry(files[k], cfg, chain, now).shown);
    ghost var storedAll := seq(|files|, k requires 0 <= k < |files| => ListEntry(files[k], cfg, chain, now).stored);
    shown := [];
    var i := 0;
    while i < |files|
      invariant 0 <= i <= |files|
      invariant shown == shownAll[..i]
      invariant |db.files| == |files|
      invariant forall k :: 0 <= k < |files| ==> db.files[k] == if k < i then storedAll[k] else files[k]
      invariant db.codes == old(db.codes) && db.users == old(db.users)
    {
      var reconciled, write := ListOne(files[i], cfg, chain, now);
      if write.Some? {
        db.files := db.files[i := write.value];
      }
      shown := shown + [reconciled];
      i := i + 1;
    }
  }

  /**
   * The listing's step for one record: sync, reconcile, and the record to save when
   * reconciliation changed the review state or the sync changed the record.
   */
  method ListOne(doc: PropertyRecord, cfg: Config, chain: Chain, now: int) returns (shown: PropertyRecord, write: Option<PropertyRecord>)
    ensures shown == ListEntry(doc, cfg, chain, now).shown
    ensures write.Some? ==> write.value == ListEntry(doc, cfg, chain, now).stored
    ensures write.None? ==> ListEntry(doc, cfg, chain, now).stored == doc
  {
    var synced, syncSaved := SyncFileWithChain(doc, cfg, chain, now);
    shown := Reconcile(synced);
    var changed :=
      || synced.workflowStatus != shown.workflowStatus
      || synced.approvalCount != shown.approvalCount
      || synced.rejectCount != shown.rejectCount
      || synced.verified != shown.verified;
    write := if changed then Some(shown) else if syncSaved then Some(synced) else None;
  }

  /** Every record in the reviewers' listing is consistent. */
  lemma ListedRecordsConsistent(doc: PropertyRecord, cfg: Config, chain: Chain, now: int)
    ensures Consistent(ListEntry(doc, cfg, chain, now).shown)
  {
  }

  /**
   * What the listing shows and what it stores differ at most in the verification time
   * and verifier, and only when the listing cleared them on an unverified record without
   * saving; a consistent record the sync does not change is neither shown nor stored
   * differently.
   */
  lemma ListShowsWhatItStores(doc: PropertyRecord, cfg: Config, chain: Chain, now: int)
    ensures var e := ListEntry(doc, cfg, chain, now);
      && e.stored == e.shown.(verifiedAt := e.stored.verifiedAt, verifiedBy := e.stored.verifiedBy)
      && (e.stored != e.shown ==> !e.shown.verified && e.shown.verifiedAt == None && e.shown.verifiedBy == None)
    ensures Consistent(doc) && !SyncSpec(doc, cfg, chain, now).saved ==>
      ListEntry(doc, cfg, chain, now) == ListEntryResult(doc, doc)
  {
    SyncUnsavedUnchanged(doc, cfg, chain, now);
    var s := SyncSpec(doc, cfg, chain, now);
    if Consistent(doc) && !s.saved {
      ReconcileFixpoint(doc);
    }
  }

  // ---------------------------------------------------------------- GET /api/files/:userId

  datatype CitizenQuery = CitizenQuery(
    role: Option<string>,
    userId: string,
    ids: Option<string>,
    email: Option<string>,
    name: Option<string>,
    walletAddress: Option<string>)

  /** `.filter(Boolean)` on strings. */
  function NonEmpty(xs: seq<string>): (r: seq<string>)
    ensures forall x :: x in r <==> x in xs && x != ""
  {
    if |xs| == 0 then []
    else
      var rest := NonEmpty(xs[1..]);
      assert forall x :: x in xs <==> x == xs[0] || x in xs[1..];
      if xs[0] == "" then rest else [xs[0]] + rest
  }

  /** `User.countDocuments({ name })` */
  function CountNamed(users: seq<UserSchema.User>, name: string): nat {
    if |users| == 0 then 0
    else (if users[0].name == name then 1 else 0) + CountNamed(users[1..], name)
  }

  /** The comma-separated extra identifiers, each trimmed, empty ones dropped. */
  function ExtraIds(ids: Option<string>): seq<string> {
    var parts := SplitOn(OrEmpty(ids), ',');
    NonEmpty(seq(|parts|, k requires 0 <= k < |parts| => Trim(parts[k])))
  }

  /**
   * The identifiers a citizen's records may have been uploaded under: the path id, the
   * extra ids and the e-mail, de-duplicated, plus the display name when no other
   * account shares it.
   */
  function CitizenIds(q: CitizenQuery, users: seq<UserSchema.User>): (r: seq<string>)
    ensures forall x :: x in r <==>
      || (x != "" && (x == q.userId || x in ExtraIds(q.ids) || x == Trim(OrEmpty(q.email))))
      || (x == Trim(OrEmpty(q.name)) && x != "" && CountNamed(users, x) <= 1)
  {
    var email := Trim(OrEmpty(q.email));
    var name := Trim(OrEmpty(q.name));
    var ids := Dedup(NonEmpty([q.userId] + ExtraIds(q.ids) + [email]));
    assert forall x :: x in [q.userId] + ExtraIds(q.ids) + [email] <==> x == q.userId || x in ExtraIds(q.ids) || x == email;
    if name != "" && CountNamed(users, name) <= 1 then ids + [name] else ids
  }

  /** A record belongs to the citizen by uploader id or, when a wallet is given, by current owner. */
  predicate OwnedBy(doc: PropertyRecord, ids: seq<string>, wallet: string) {
    doc.userId in ids || (wallet != "" && Lower(Trim(OrEmpty(doc.currentOwnerWallet))) == wallet)
  }

  /** The records among `docs` that belong to the citizen, in order. */
  function FilterOwned(docs: seq<PropertyRecord>, ids: seq<string>, wallet: string): (r: seq<PropertyRecord>)
    ensures forall d :: d in r <==> d in docs && OwnedBy(d, ids, wallet)
    ensures |r| <= |docs|
  {
    if |docs| == 0 then []
    else
      var rest := FilterOwned(docs[1..], ids, wallet);
      assert forall d :: d in docs <==> d == docs[0] || d in docs[1..];
      if OwnedBy(docs[0], ids, wallet) then [docs[0]] + rest else rest
  }

  datatype CitizenOutcome = CitizenForbidden | CitizenListed(files: seq<PropertyRecord>) {
    function StatusCode(): int {
      if CitizenForbidden? then 403 else 200
    }
  }

  /** Every record after its sync. */
  function SyncAll(files: seq<PropertyRecord>, cfg: Config, chain: Chain, now: int): (r: seq<PropertyRecord>)
    ensures |r| == |files| && forall k :: 0 <= k < |files| ==> r[k] == SyncSpec(files[k], cfg, chain, now).doc
  {
    seq(|files|, k requires 0 <= k < |files| => SyncSpec(files[k], cfg, chain, now).doc)
  }

  /** The response of GET /api/files/:userId and the records stored afterwards. */
  function CitizenSpec(files: seq<PropertyRecord>, users: seq<UserSchema.User>, q: CitizenQuery,
                       cfg: Config, chain: Chain, now: int): (CitizenOutcome, seq<PropertyRecord>)
  {
    if RequestRole(q.role) != "citizen" then (CitizenForbidden, files)
    else
      var synced := SyncAll(files, cfg, chain, now);
      (CitizenListed(FilterOwned(synced, CitizenIds(q, users), Lower(Trim(OrEmpty(q.walletAddress))))), synced)
  }

  /** GET /api/files/:userId: citizens only; every record is synchronised, then the citizen's are kept. */
  method CitizenFiles(db: Db, q: CitizenQuery, cfg: Config, chain: Chain, now: int) returns (outcome: CitizenOutcome)
    modifies db
    ensures (outcome, db.files) == CitizenSpec(old(db.files), old(db.users), q, cfg, chain, now)
    ensures db.codes == old(db.codes) && db.users == old(db.users)
  {
    var wallet := Lower(Trim(OrEmpty(q.walletAddress)));
    if RequestRole(q.role) != "citizen" {
      return CitizenForbidden;
    }
    var ids := CitizenIds(q, db.users);
    SyncStored(db, cfg, chain, now);
    outcome := CitizenListed(FilterOwned(db.files, ids, wallet));
  }

  /** The citizen listing's loop: each record in turn is synchronised, and saved when the sync changed it. */
  method SyncStored(db: Db, cfg: Config, chain: Chain, now: int)
    modifies db
    ensures db.files == SyncAll(old(db.files), cfg, chain, now)
    ensures db.codes == old(db.codes) && db.users == old(db.users)
  {
    var files := db.files;
    var i := 0;
    while i < |files|
      invariant 0 <= i <= |files|
      invariant |db.files| == |files|
      invariant forall k :: 0 <= k < |files| ==>
        db.files[k] == if k < i then SyncSpec(files[k], cfg, chain, now).doc else files[k]
      invariant db.codes == old(db.codes) && db.users == old(db.users)
    {
      var synced, saved := SyncFileWithChain(files[i], cfg, chain, now);
      SyncUnsavedUnchanged(files[i], cfg, chain, now);
      if saved {
        db.files := db.files[i := synced];
      }
      i := i + 1;
    }
  }

  /** A citizen always sees the records uploaded under the path id. */
  lemma CitizenSeesOwnUploads(files: seq<PropertyRecord>, users: seq<UserSchema.User>, q: CitizenQuery,
                              cfg: Config, chain: Chain, now: int, i: nat)
    requires RequestRole(q.role) == "citizen" && q.userId != ""
    requires i < |files| && files[i].userId == q.userId
    ensures SyncSpec(files[i], cfg, chain, now).doc in CitizenSpec(files, users, q, cfg, chain, now).0.files
  {
    var synced := SyncAll(files, cfg, chain, now);
    var d := SyncSpec(files[i], cfg, chain, now).doc;
    SyncKeepsIdentity(files[i], cfg, chain, now);
    assert synced[i] == d && d in synced;
    assert q.userId in CitizenIds(q, users);
    assert OwnedBy(d, CitizenIds(q, users), Lower(Trim(OrEmpty(q.walletAddress))));
  }

  /**
   * A citizen who gives a wallet sees every record whose owner after the sync is that
   * wallet (compared trimmed and in lower case), and sees nothing that belongs to
   * neither their identifiers nor their wallet.
   */
  lemma CitizenSeesOwnedByWallet(files: seq<PropertyRecord>, users: seq<UserSchema.User>, q: CitizenQuery,
                                 cfg: Config, chain: Chain, now: int)
    requires RequestRole(q.role) == "citizen"
    ensures var listed := CitizenSpec(files, users, q, cfg, chain, now).0.files;
      var synced := CitizenSpec(files, users, q, cfg, chain, now).1;
      var wallet := Lower(Trim(OrEmpty(q.walletAddress)));
      && (forall k :: (0 <= k < |synced| && wallet != "" &&
                       Lower(Trim(OrEmpty(synced[k].currentOwnerWallet))) == wallet) ==> synced[k] in listed)
      && (forall d :: d in listed ==> d in synced && OwnedBy(d, CitizenIds(q, users), wallet))
  {
  }
}

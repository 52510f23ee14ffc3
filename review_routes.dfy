/**
 * The review workflow routes: a reviewer's approve/reject decision, and the two ways a
 * record that reached two approvals is finalised (the backend pushes the hash to the
 * ledger itself, or confirms a push the citizen's wallet made).
 */
module ReviewRoutes {
  import opened Wrappers
  import opened Text
  import opened FileSchema
  import opened Workflow
  import opened Ledger
  import opened BlockchainService
  import opened Database
  import FileRoutes

  /** Who may call the review routes: one of the three slot roles, or a citizen (who has no slot). */
  datatype Reviewer = SlotReviewer(role: Role) | CitizenReviewer

  /**
   * The role a request names, lower-cased, with `localauthority` mapped to the slot
   * name; anything else is refused.
   */
  function ParseReviewer(role: Option<string>): (r: Option<Reviewer>)
    ensures r == Some(SlotReviewer(Registrar)) <==> FileRoutes.RequestRole(role) == "registrar"
    ensures r == Some(SlotReviewer(Notary)) <==> FileRoutes.RequestRole(role) == "notary"
    ensures r == Some(SlotReviewer(LocalAuthority)) <==> FileRoutes.RequestRole(role) == "localauthority"
    ensures r == Some(CitizenReviewer) <==> FileRoutes.RequestRole(role) == "citizen"
    ensures r.None? <==> FileRoutes.RequestRole(role) !in {"registrar", "notary", "localauthority", "citizen"}
  {
    var role := FileRoutes.RequestRole(role);
    if role == "registrar" then Some(SlotReviewer(Registrar))
    else if role == "notary" then Some(SlotReviewer(Notary))
    else if role == "localauthority" then Some(SlotReviewer(LocalAuthority))
    else if role == "citizen" then Some(CitizenReviewer)
    else None
  }

  /** `String(decision || "").toLowerCase()` must be `approve` or `reject`. */
  function ParseDecision(decision: Option<string>): (r: Option<Decision>)
    ensures r == Some(Approve) <==> Lower(OrEmpty(decision)) == "approve"
    ensures r == Some(Reject) <==> Lower(OrEmpty(decision)) == "reject"
  {
    var d := Lower(OrEmpty(decision));
    if d == "approve" then Some(Approve) else if d == "reject" then Some(Reject) else None
  }

  /** The decision already stored for the caller's slot; a citizen has no slot, so none. */
  function ExistingDecision(file: PropertyRecord, reviewer: Reviewer): Option<Decision> {
    match reviewer
    case SlotReviewer(role) => file.roleDecisions.Get(role).decision
    case CitizenReviewer => None
  }

  /** The slot a new decision fills: the reason only for a reject, the reviewer's wallet or null, and the time. */
  function DecisionSlot(decision: Decision, reason: string, reviewerWallet: Option<string>, now: int): RoleDecision {
    RoleDecision(Some(decision), if decision == Reject then Some(reason) else None, OrNull(reviewerWallet), Some(now))
  }

  /**
   * Recording a decision. The schema has no citizen slot, so a citizen's decision does
   * not reach the stored record.
   */
  function RecordDecision(file: PropertyRecord, reviewer: Reviewer, slot: RoleDecision): (r: PropertyRecord)
    ensures reviewer.SlotReviewer? ==> r == file.(roleDecisions := file.roleDecisions.Set(reviewer.role, slot))
    ensures reviewer.CitizenReviewer? ==> r == file
  {
    match reviewer
    case SlotReviewer(role) => file.(roleDecisions := file.roleDecisions.Set(role, slot))
    case CitizenReviewer => file
  }

  datatype ReviewRequest = ReviewRequest(
    role: Option<string>,
    hash: Option<string>,
    reviewerWallet: Option<string>,
    decision: Option<string>,
    rejectionReason: Option<string>)

  datatype ReviewOutcome =
    | Forbidden
    | HashRequired
    | InvalidDecision
    | ReasonRequired
    | DocumentNotFound
    | AlreadyFinal(status: WorkflowStatus)
    | AlreadyReviewed(reviewer: Reviewer, decision: Decision, file: PropertyRecord)
    | RejectedByQuorum(file: PropertyRecord)
    | AwaitingChainPush(file: PropertyRecord)
    | ReviewSaved(file: PropertyRecord)
  {
    function StatusCode(): int {
      match this
      case Forbidden => 403
      case DocumentNotFound => 404
      case HashRequired | InvalidDecision | ReasonRequired | AlreadyFinal(_) => 400
      case _ => 200
    }

    /** The outcomes that write the record back. */
    predicate Writes() {
      AlreadyReviewed? || RejectedByQuorum? || AwaitingChainPush? || ReviewSaved?
    }
  }

  /**
   * The end of a review after the new decision was reconciled: two rejects reject, two
   * approvals wait for the chain push with the verification and chain fields cleared,
   * otherwise the record stays pending.
   */
  function Conclude(decided: PropertyRecord): (outcome: ReviewOutcome)
    ensures outcome.RejectedByQuorum? || outcome.AwaitingChainPush? || outcome.ReviewSaved?
  {
    if decided.rejectCount >= 2 then
      RejectedByQuorum(decided.(workflowStatus := Rejected, verified := false, verifiedAt := None, verifiedBy := None))
    else if decided.approvalCount >= 2 then
      AwaitingChainPush(decided.(workflowStatus := ApprovedPendingChain, verified := false, verifiedAt := None,
                                 verifiedBy := None, chainTxHash := None, chainPushedAt := None))
    else ReviewSaved(decided.(workflowStatus := Pending))
  }

  /** A review request that passed the role, hash, decision and reason checks. */
  datatype ValidReview = ValidReview(reviewer: Reviewer, hash: string, decision: Decision, reason: string)

  /**
   * The request checks, in the order the route makes them: role, hash, decision, and a
   * non-blank (trimmed) reason for a reject.
   */
  function ValidateReview(req: ReviewRequest): (r: Result<ValidReview, ReviewOutcome>)
    ensures r == Err(Forbidden) <==> ParseReviewer(req.role).None?
    ensures r == Err(HashRequired) <==> ParseReviewer(req.role).Some? && !Truthy(req.hash)
    ensures r == Err(InvalidDecision) <==>
      ParseReviewer(req.role).Some? && Truthy(req.hash) && ParseDecision(req.decision).None?
    ensures r == Err(ReasonRequired) <==>
      && ParseReviewer(req.role).Some? && Truthy(req.hash) && ParseDecision(req.decision) == Some(Reject)
      && Blank(OrEmpty(req.rejectionReason))
    ensures r.Err? ==> r.error in {Forbidden, HashRequired, InvalidDecision, ReasonRequired}
    ensures r.Ok? ==>
      && Some(r.value.reviewer) == ParseReviewer(req.role)
      && Truthy(req.hash) && r.value.hash == req.hash.value
      && Some(r.value.decision) == ParseDecision(req.decision)
      && r.value.reason == Trim(OrEmpty(req.rejectionReason))
      && (r.value.decision == Reject ==> r.value.reason != "")
  {
    match ParseReviewer(req.role)
    case None => Err(Forbidden)
    case Some(reviewer) =>
      if !Truthy(req.hash) then Err(HashRequired)
      else
        match ParseDecision(req.decision)
        case None => Err(InvalidDecision)
        case Some(decision) =>
          var reason := Trim(OrEmpty(req.rejectionReason));
          if decision == Reject && reason == "" then Err(ReasonRequired)
          else Ok(ValidReview(reviewer, req.hash.value, decision, reason))
  }

  /**
   * A valid review on the stored record: the record is reconciled first; a final status
   * is refused, a role that already decided is told so, otherwise the decision is
   * recorded, reconciled and concluded.
   */
  function ReviewOn(stored: PropertyRecord, v: ValidReview, reviewerWallet: Option<string>, now: int): ReviewOutcome {
    var file := Reconcile(stored);
    if file.workflowStatus.Final() then AlreadyFinal(file.workflowStatus)
    else
      match ExistingDecision(file, v.reviewer)
      case Some(d) => AlreadyReviewed(v.reviewer, d, file)
      case None =>
        Conclude(Reconcile(RecordDecision(file, v.reviewer, DecisionSlot(v.decision, v.reason, reviewerWallet, now))))
  }

  /** The response of PATCH /api/files/review and the records stored afterwards. */
  function ReviewSpec(files: seq<PropertyRecord>, req: ReviewRequest, now: int): (ReviewOutcome, seq<PropertyRecord>) {
    match ValidateReview(req)
    case Err(e) => (e, files)
    case Ok(v) =>
      match FindFile(files, v.hash)
      case None => (DocumentNotFound, files)
      case Some(i) =>
        var outcome := ReviewOn(files[i], v, req.reviewerWallet, now);
        (outcome, if outcome.Writes() then files[i := outcome.file] else files)
  }

  /** PATCH /api/files/review */
  method Review(db: Db, req: ReviewRequest, now: int) returns (outcome: ReviewOutcome)
    modifies db
    ensures (outcome, db.files) == ReviewSpec(old(db.files), req, now)
    ensures db.codes == old(db.codes) && db.users == old(db.users)
  {
    var reviewer := ParseReviewer(req.role);
    if reviewer.None? {
      return Forbidden;
    }
    if !Truthy(req.hash) {
      return HashRequired;
    }
    var decision := ParseDecision(req.decision);
    if decision.None? {
      return InvalidDecision;
    }
    var reason := Trim(OrEmpty(req.rejectionReason));
    if decision.value == Reject && reason == "" {
      return ReasonRequired;
    }
    ghost var v := ValidReview(reviewer.value, req.hash.value, decision.value, reason);
    assert ValidateReview(req) == Ok(v);
    var found := FindFile(db.files, req.hash.value);
    if found.None? {
      return DocumentNotFound;
    }
    var i := found.value;
    var file := ReconcileWorkflowState(db.files[i]);
    if file.workflowStatus.Final() {
      return AlreadyFinal(file.workflowStatus);
    }
    var existing := ExistingDecision(file, reviewer.value);
    if existing.Some? {
      db.files := db.files[i := file];
      return AlreadyReviewed(reviewer.value, existing.value, file);
    }
    file := RecordDecision(file, reviewer.value, DecisionSlot(decision.value, reason, req.reviewerWallet, now));
    file := ReconcileWorkflowState(file);
    outcome := Conclude(file);
    assert outcome == ReviewOn(old(db.files)[i], v, req.reviewerWallet, now);
    db.files := db.files[i := outcome.file];
  }

  /**
   * The request checks fail before the lookup and the lookup fails before the record is
   * read; none of these failures, nor a refusal on a final record, writes anything.
   */
  lemma ReviewErrorOrder(files: seq<PropertyRecord>, req: ReviewRequest, now: int)
    ensures ValidateReview(req).Err? ==> ReviewSpec(files, req, now) == (ValidateReview(req).error, files)
    ensures ReviewSpec(files, req, now).0 == DocumentNotFound <==>
      ValidateReview(req).Ok? && FindFile(files, req.hash.value).None?
    ensures !ReviewSpec(files, req, now).0.Writes() ==> ReviewSpec(files, req, now).1 == files
  {
  }

  /** A record whose reconciled status is final is refused and left untouched. */
  lemma ReviewFinalIsImmutable(stored: PropertyRecord, v: ValidReview, reviewerWallet: Option<string>, now: int)
    requires Reconcile(stored).workflowStatus.Final()
    ensures ReviewOn(stored, v, reviewerWallet, now) == AlreadyFinal(Reconcile(stored).workflowStatus)
    ensures !ReviewOn(stored, v, reviewerWallet, now).Writes()
  {
  }

  /**
   * A role that already decided gets its stored decision back; only the reconciled
   * counts and status are written, the decisions themselves are unchanged.
   */
  lemma ReviewAlreadyReviewedKeepsDecision(stored: PropertyRecord, v: ValidReview, reviewerWallet: Option<string>, now: int, role: Role)
    requires !Reconcile(stored).workflowStatus.Final()
    requires v.reviewer == SlotReviewer(role) && stored.roleDecisions.Get(role).decision.Some?
    ensures ReviewOn(stored, v, reviewerWallet, now) ==
      AlreadyReviewed(SlotReviewer(role), stored.roleDecisions.Get(role).decision.value, Reconcile(stored))
    ensures ReviewOn(stored, v, reviewerWallet, now).file.roleDecisions == stored.roleDecisions
  {
  }

  /**
   * A slot role's first decision fills its slot (reason only for a reject, the wallet or
   * null, the time) and leaves the other two slots alone.
   */
  lemma ReviewRecordsDecision(stored: PropertyRecord, v: ValidReview, reviewerWallet: Option<string>, now: int, role: Role)
    requires !Reconcile(stored).workflowStatus.Final()
    requires v.reviewer == SlotReviewer(role) && stored.roleDecisions.Get(role).decision.None?
    ensures ReviewOn(stored, v, reviewerWallet, now).Writes()
    ensures ReviewOn(stored, v, reviewerWallet, now).file.roleDecisions.Get(role) ==
      RoleDecision(Some(v.decision), if v.decision == Reject then Some(v.reason) else None, OrNull(reviewerWallet), Some(now))
    ensures forall other :: other != role ==>
      ReviewOn(stored, v, reviewerWallet, now).file.roleDecisions.Get(other) == stored.roleDecisions.Get(other)
  {
    var file := Reconcile(stored);
    var decided := Reconcile(RecordDecision(file, v.reviewer, DecisionSlot(v.decision, v.reason, reviewerWallet, now)));
    assert ReviewOn(stored, v, reviewerWallet, now) == Conclude(decided);
  }

  /**
   * Whatever a review writes is consistent, and the outcome follows the new counts:
   * rejected at two rejects, awaiting the chain push (unverified, no verification or
   * chain fields) at two approvals, otherwise pending.
   */
  lemma ReviewOutcomeFollowsCounts(stored: PropertyRecord, v: ValidReview, reviewerWallet: Option<string>, now: int)
    ensures var outcome := ReviewOn(stored, v, reviewerWallet, now);
      && (outcome.Writes() ==> Consistent(outcome.file))
      && (outcome.RejectedByQuorum? ==> outcome.file.rejectCount >= 2 && outcome.file.workflowStatus == Rejected)
      && (outcome.AwaitingChainPush? ==>
            && outcome.file.approvalCount >= 2 && outcome.file.rejectCount < 2
            && outcome.file.workflowStatus == ApprovedPendingChain && !outcome.file.verified
            && outcome.file.verifiedAt == None && outcome.file.verifiedBy == None
            && outcome.file.chainTxHash == None && outcome.file.chainPushedAt == None)
      && (outcome.ReviewSaved? ==>
            outcome.file.approvalCount < 2 && outcome.file.rejectCount < 2 && outcome.file.workflowStatus == Pending)
  {
    var file := Reconcile(stored);
    if !file.workflowStatus.Final() && ExistingDecision(file, v.reviewer).None? {
      var decided := Reconcile(RecordDecision(file, v.reviewer, DecisionSlot(v.decision, v.reason, reviewerWallet, now)));
      ConsistentCountsBounded(decided);
    }
  }

  /**
   * The second approval: when a slot role approves a record that holds exactly one
   * approval and at most one reject, the record moves to awaiting the chain push.
   */
  lemma SecondApprovalAwaitsChainPush(stored: PropertyRecord, v: ValidReview, reviewerWallet: Option<string>, now: int, role: Role)
    requires v.reviewer == SlotReviewer(role) && v.decision == Approve
    requires stored.roleDecisions.Get(role).decision.None?
    requires |RolesWith(stored.roleDecisions, Approve)| == 1 && |RolesWith(stored.roleDecisions, Reject)| <= 1
    ensures ReviewOn(stored, v, reviewerWallet, now).AwaitingChainPush?
  {
    var slot := DecisionSlot(Approve, v.reason, reviewerWallet, now);
    FillEmptySlot(stored.roleDecisions, role, slot, Approve, Reject);
    var file := Reconcile(stored);
    assert !file.workflowStatus.Final();
    var decided := Reconcile(RecordDecision(file, SlotReviewer(role), slot));
    assert decided.approvalCount == 2 && decided.rejectCount < 2;
  }

  /**
   * A citizen passes the role check but has no slot: the review stores no decision, the
   * record is only reconciled and concluded again.
   */
  lemma CitizenReviewRecordsNothing(stored: PropertyRecord, v: ValidReview, reviewerWallet: Option<string>, now: int)
    requires v.reviewer == CitizenReviewer && !Reconcile(stored).workflowStatus.Final()
    ensures ReviewOn(stored, v, reviewerWallet, now) == Conclude(Reconcile(stored))
    ensures ReviewOn(stored, v, reviewerWallet, now).file.roleDecisions == stored.roleDecisions
  {
    ReconcileIdempotent(stored);
  }

  // ---------------------------------------------------------------- retry-chain-push / confirm-chain-push

  datatype PushRequest = PushRequest(role: Option<string>, hash: Option<string>, txHash: Option<string>)

  datatype PushOutcome =
    | PushForbidden
    | PushHashRequired
    | PushNotFound
    | NeedsTwoApprovals
    | SignerMissing
    | ChainPushFailed(message: string)
    | PushApproved(file: PropertyRecord)
  {
    function StatusCode(): int {
      match this
      case PushForbidden => 403
      case PushNotFound => 404
      case PushHashRequired | NeedsTwoApprovals => 400
      case SignerMissing => 503
      case ChainPushFailed(_) => 500
      case PushApproved(_) => 200
    }
  }

  /** The checks both finalising routes share: role, hash, lookup by trimmed hash, two stored approvals. */
  function PushGate(files: seq<PropertyRecord>, req: PushRequest): (r: Result<nat, PushOutcome>)
    ensures r == Err(PushForbidden) <==> ParseReviewer(req.role).None?
    ensures r == Err(PushHashRequired) <==> ParseReviewer(req.role).Some? && !Truthy(req.hash)
    ensures r == Err(PushNotFound) <==>
      ParseReviewer(req.role).Some? && Truthy(req.hash) && FindFile(files, Trim(req.hash.value)).None?
    ensures r == Err(NeedsTwoApprovals) <==>
      && ParseReviewer(req.role).Some? && Truthy(req.hash) && FindFile(files, Trim(req.hash.value)).Some?
      && files[FindFile(files, Trim(req.hash.value)).value].approvalCount < 2
    ensures r.Ok? ==> ParseReviewer(req.role).Some? && r.value < |files| && files[r.value].approvalCount >= 2
    ensures r.Ok? ==> Truthy(req.hash) && FindFile(files, Trim(req.hash.value)) == Some(r.value)
    ensures r.Err? ==> r.error in {PushForbidden, PushHashRequired, PushNotFound, NeedsTwoApprovals}
  {
    if ParseReviewer(req.role).None? then Err(PushForbidden)
    else if !Truthy(req.hash) then Err(PushHashRequired)
    else
      match FindFile(files, Trim(req.hash.value))
      case None => Err(PushNotFound)
      case Some(i) => if files[i].approvalCount < 2 then Err(NeedsTwoApprovals) else Ok(i)
  }

  /** The record after a push the backend made: approved and verified by "multi-role", pushed now if a hash came back. */
  function Pushed(file: PropertyRecord, txHash: string, now: int): PropertyRecord {
    var tx := OrNull(Some(txHash));
    file.(workflowStatus := Approved, verified := true, verifiedAt := Some(now), verifiedBy := Some("multi-role"),
          chainTxHash := tx, chainPushedAt := if tx.Some? then Some(now) else None)
  }

  /** The response of PATCH /api/files/retry-chain-push and the records stored afterwards. */
  function RetrySpec(files: seq<PropertyRecord>, req: PushRequest, cfg: Config, chain: Chain, writer: Writer, now: int)
    : (PushOutcome, seq<PropertyRecord>)
  {
    match PushGate(files, req)
    case Err(e) => (e, files)
    case Ok(i) =>
      if !HasSignerConfig(cfg) then (SignerMissing, files)
      else
        match StoreHashSpec(cfg, chain, writer, files[i].ipfshash)
        case Err(m) => (ChainPushFailed(m), files)
        case Ok(h) => (PushApproved(Pushed(files[i], h, now)), files[i := Pushed(files[i], h, now)])
  }

  /** PATCH /api/files/retry-chain-push */
  method RetryChainPush(db: Db, req: PushRequest, cfg: Config, chain: Chain, writer: Writer, now: int)
    returns (outcome: PushOutcome)
    modifies db
    ensures (outcome, db.files) == RetrySpec(old(db.files), req, cfg, chain, writer, now)
    ensures db.codes == old(db.codes) && db.users == old(db.users)
  {
    var gate := PushGate(db.files, req);
    if gate.Err? {
      return gate.error;
    }
    if !HasSignerConfig(cfg) {
      return SignerMissing;
    }
    var stored := StoreHashOnChain(cfg, chain, writer, db.files[gate.value].ipfshash);
    if stored.Err? {
      return ChainPushFailed(stored.error);
    }
    var file := db.files[gate.value];
    var chainTxHash := OrNull(Some(stored.value));
    file := file.(workflowStatus := Approved, verified := true, verifiedAt := Some(now), verifiedBy := Some("multi-role"));
    file := file.(chainTxHash := chainTxHash, chainPushedAt := if chainTxHash.Some? then Some(now) else None);
    db.files := db.files[gate.value := file];
    outcome := PushApproved(file);
  }

  /**
   * The retry's refusals, each by its condition on the request and the stored records:
   * a role outside the four is 403, a missing hash 400, an unknown hash 404, fewer than
   * two stored approvals 400, all before the ledger is touched; then missing signer
   * configuration is 503, and a failed write of the record's hash is 500. No refusal
   * saves anything.
   */
  lemma RetryChecksBeforeWrite(files: seq<PropertyRecord>, req: PushRequest, cfg: Config, chain: Chain, writer: Writer, now: int)
    ensures var outcome := RetrySpec(files, req, cfg, chain, writer, now).0;
      var after := RetrySpec(files, req, cfg, chain, writer, now).1;
      var found := if Truthy(req.hash) then FindFile(files, Trim(req.hash.value)) else None;
      && (outcome == PushForbidden <==> ParseReviewer(req.role).None?)
      && (outcome == PushHashRequired <==> ParseReviewer(req.role).Some? && !Truthy(req.hash))
      && (outcome == PushNotFound <==> ParseReviewer(req.role).Some? && Truthy(req.hash) && found.None?)
      && (outcome == NeedsTwoApprovals <==>
            ParseReviewer(req.role).Some? && found.Some? && files[found.value].approvalCount < 2)
      && (outcome == SignerMissing <==>
            ParseReviewer(req.role).Some? && found.Some? && files[found.value].approvalCount >= 2 && !HasSignerConfig(cfg))
      && (outcome.ChainPushFailed? <==>
            && ParseReviewer(req.role).Some? && found.Some? && files[found.value].approvalCount >= 2
            && HasSignerConfig(cfg) && StoreHashSpec(cfg, chain, writer, files[found.value].ipfshash).Err?)
      && (!outcome.PushApproved? ==> after == files)
  {
  }

  /**
   * A successful retry wrote the found record's own hash to the ledger, and stores that
   * record approved and verified by "multi-role" at `now`, with the transaction hash
   * the write returned and a push time only when that hash is non-empty; a record that
   * was consistent stays consistent.
   */
  lemma RetrySuccess(files: seq<PropertyRecord>, req: PushRequest, cfg: Config, chain: Chain, writer: Writer, now: int)
    requires RetrySpec(files, req, cfg, chain, writer, now).0.PushApproved?
    ensures var outcome := RetrySpec(files, req, cfg, chain, writer, now).0;
      var after := RetrySpec(files, req, cfg, chain, writer, now).1;
      var i := PushGate(files, req).value;
      && Truthy(req.hash) && FindFile(files, Trim(req.hash.value)) == Some(i)
      && StoreHashSpec(cfg, chain, writer, files[i].ipfshash).Ok?
      && after == files[i := outcome.file]
      && outcome.file.ipfshash == files[i].ipfshash
      && outcome.file.workflowStatus == Approved && outcome.file.verified
      && outcome.file.verifiedAt == Some(now) && outcome.file.verifiedBy == Some("multi-role")
      && outcome.file.chainTxHash == OrNull(Some(StoreHashSpec(cfg, chain, writer, files[i].ipfshash).value))
      && (outcome.file.chainPushedAt.Some? <==> outcome.file.chainTxHash.Some?)
      && outcome.file.roleDecisions == files[i].roleDecisions
      && (Consistent(files[i]) ==> Consistent(outcome.file))
  {
    var i := PushGate(files, req).value;
    if Consistent(files[i]) {
      ConsistentCountsBounded(files[i]);
    }
  }

  /** The record after a push the citizen's wallet made: the given hash, else the stored one, else null. */
  function Confirmed(file: PropertyRecord, txHash: Option<string>, now: int): PropertyRecord {
    file.(workflowStatus := Approved, verified := true, verifiedAt := Some(now), verifiedBy := Some("multi-role"),
          chainTxHash := if Truthy(txHash) then txHash else OrNull(file.chainTxHash), chainPushedAt := Some(now))
  }

  /** The response of PATCH /api/files/confirm-chain-push and the records stored afterwards. */
  function ConfirmSpec(files: seq<PropertyRecord>, req: PushRequest, now: int): (PushOutcome, seq<PropertyRecord>) {
    match PushGate(files, req)
    case Err(e) => (e, files)
    case Ok(i) => (PushApproved(Confirmed(files[i], req.txHash, now)), files[i := Confirmed(files[i], req.txHash, now)])
  }

  /** PATCH /api/files/confirm-chain-push */
  method ConfirmChainPush(db: Db, req: PushRequest, now: int) returns (outcome: PushOutcome)
    modifies db
    ensures (outcome, db.files) == ConfirmSpec(old(db.files), req, now)
    ensures db.codes == old(db.codes) && db.users == old(db.users)
  {
    var gate := PushGate(db.files, req);
    if gate.Err? {
      return gate.error;
    }
    var file := db.files[gate.value];
    file := file.(workflowStatus := Approved, verified := true, verifiedAt := Some(now), verifiedBy := Some("multi-role"));
    file := file.(chainTxHash := if Truthy(req.txHash) then req.txHash else OrNull(file.chainTxHash));
    file := file.(chainPushedAt := Some(now));
    db.files := db.files[gate.value := file];
    outcome := PushApproved(file);
  }

  /**
   * Confirmation only finalises a record with two stored approvals; on a consistent
   * record that means one awaiting the chain push or already approved, never a pending
   * or rejected one, and the result is consistent. Without a new transaction hash the
   * stored one is kept.
   */
  lemma ConfirmOnlyAfterQuorum(files: seq<PropertyRecord>, req: PushRequest, now: int)
    ensures var outcome := ConfirmSpec(files, req, now).0;
      var after := ConfirmSpec(files, req, now).1;
      && (outcome.PushApproved? <==> PushGate(files, req).Ok?)
      && (!outcome.PushApproved? ==> after == files)
      && (outcome.PushApproved? ==>
            var i := PushGate(files, req).value;
            && after == files[i := outcome.file]
            && outcome.file.workflowStatus == Approved && outcome.file.verified
            && outcome.file.chainPushedAt == Some(now)
            && (!Truthy(req.txHash) ==> outcome.file.chainTxHash == OrNull(files[i].chainTxHash))
            && (Consistent(files[i]) ==>
                  files[i].workflowStatus in {Approved, ApprovedPendingChain} && Consistent(outcome.file)))
  {
    if ConfirmSpec(files, req, now).0.PushApproved? {
      var i := PushGate(files, req).value;
      if Consistent(files[i]) {
        ConsistentCountsBounded(files[i]);
      }
    }
  }
}

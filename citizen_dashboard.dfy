/**
 * The citizen's page: the identifiers it asks for the citizen's records with, the
 * rejection reasons and status text it shows for a record, and the checks it makes
 * before pushing a record to the ledger, resolving a buyer's transfer code and
 * starting a transfer.
 */
module CitizenDashboard {
  import opened Wrappers
  import opened Text
  import opened FileSchema
  import Workflow
  import FileRoutes
  import ReviewRoutes
  import UserSchema
  import Database

  // ---------------------------------------------------------------- identifiers

  /** The stored user's e-mail, `id` and `_id`, in that order, a missing one as "". */
  function Candidates(email: Option<string>, id: Option<string>, dbId: Option<string>): seq<string> {
    [OrEmpty(email), OrEmpty(id), OrEmpty(dbId)]
  }

  /** Dropping empty strings keeps the order of first occurrences. */
  lemma {:induction false} NonEmptyKeepsOrder(xs: seq<string>, x: string, y: string)
    requires x in FileRoutes.NonEmpty(xs) && y in FileRoutes.NonEmpty(xs)
    requires FirstIndex(FileRoutes.NonEmpty(xs), x) < FirstIndex(FileRoutes.NonEmpty(xs), y)
    ensures FirstIndex(xs, x) < FirstIndex(xs, y)
  {
    var rest := FileRoutes.NonEmpty(xs[1..]);
    if xs[0] == "" {
      NonEmptyKeepsOrder(xs[1..], x, y);
    } else if x != xs[0] {
      assert y != xs[0];
      NonEmptyKeepsOrder(xs[1..], x, y);
    }
  }

  /** Without the empty candidates, the first identifier is the first non-empty one. */
  lemma FirstPresentCandidate(email: Option<string>, id: Option<string>, dbId: Option<string>)
    ensures var present := FileRoutes.NonEmpty(Candidates(email, id, dbId));
      && (present != [] <==> Truthy(email) || Truthy(id) || Truthy(dbId))
      && (present != [] ==> present[0] == if Truthy(email) then email.value else if Truthy(id) then id.value else dbId.value)
  {
    var c := Candidates(email, id, dbId);
    var e, i, d := OrEmpty(email), OrEmpty(id), OrEmpty(dbId);
    assert c[1..] == [i, d] && [i, d][1..] == [d] && [d][1..] == [];
    assert FileRoutes.NonEmpty([]) == [];
    var last := FileRoutes.NonEmpty([d]);
    assert last == if d == "" then [] else [d];
    var tail := FileRoutes.NonEmpty([i, d]);
    assert tail == if i == "" then last else [i] + last;
  }

  /** The identifiers keep the order of the candidates they come from. */
  lemma IdentifiersInCandidateOrder(email: Option<string>, id: Option<string>, dbId: Option<string>)
    ensures forall i, j :: 0 <= i < j < |Dedup(FileRoutes.NonEmpty(Candidates(email, id, dbId)))| ==>
      && FirstIndex(Candidates(email, id, dbId), Dedup(FileRoutes.NonEmpty(Candidates(email, id, dbId)))[i])
         < FirstIndex(Candidates(email, id, dbId), Dedup(FileRoutes.NonEmpty(Candidates(email, id, dbId)))[j])
  {
    var candidates := Candidates(email, id, dbId);
    var present := FileRoutes.NonEmpty(candidates);
    var ids := Dedup(present);
    DedupKeepsFirstOccurrenceOrder(present);
    forall i, j | 0 <= i < j < |ids|
      ensures FirstIndex(candidates, ids[i]) < FirstIndex(candidates, ids[j])
    {
      NonEmptyKeepsOrder(candidates, ids[i], ids[j]);
    }
  }

  /**
   * The stored user's e-mail, `id` and `_id`, empty ones dropped, each kept once, in
   * that order: the first identifier is the first of the three that is not empty.
   */
  function GetUserIdentifiers(email: Option<string>, id: Option<string>, dbId: Option<string>): (ids: seq<string>)
    ensures forall x :: x in ids <==> x != "" && (Some(x) == email || Some(x) == id || Some(x) == dbId)
    ensures forall i, j :: 0 <= i < j < |ids| ==> ids[i] != ids[j]
    ensures forall x :: x in ids ==> x in Candidates(email, id, dbId)
    ensures forall i, j :: 0 <= i < j < |ids| ==>
      FirstIndex(Candidates(email, id, dbId), ids[i]) < FirstIndex(Candidates(email, id, dbId), ids[j])
    ensures ids != [] <==> Truthy(email) || Truthy(id) || Truthy(dbId)
    ensures ids != [] ==> ids[0] == if Truthy(email) then email.value else if Truthy(id) then id.value else dbId.value
  {
    var candidates := Candidates(email, id, dbId);
    assert forall x :: x in candidates <==> x == OrEmpty(email) || x == OrEmpty(id) || x == OrEmpty(dbId);
    var ids := Dedup(FileRoutes.NonEmpty(candidates));
    IdentifiersInCandidateOrder(email, id, dbId);
    FirstPresentCandidate(email, id, dbId);
    ids
  }

  /**
   * The query the page sends for its records: the first identifier in the path, all of
   * them joined by commas, and the e-mail, name and connected wallet.
   */
  function RecordsQuery(ids: seq<string>, email: Option<string>, name: Option<string>, wallet: string): FileRoutes.CitizenQuery
    requires ids != []
  {
    FileRoutes.CitizenQuery(Some("citizen"), ids[0], Some(Join(ids, ',')), Some(OrEmpty(email)), Some(OrEmpty(name)), Some(wallet))
  }

  /**
   * Every identifier the page holds reaches the route's list of the citizen's
   * identifiers, provided none contains a comma or surrounding white space (the route
   * splits the list on commas and trims each piece), and the route treats the request
   * as a citizen's.
   */
  lemma IdentifiersReachRoute(ids: seq<string>, email: Option<string>, name: Option<string>, wallet: string,
                              users: seq<UserSchema.User>)
    requires ids != []
    requires forall k :: 0 <= k < |ids| ==> ids[k] != "" && ',' !in ids[k] && Trim(ids[k]) == ids[k]
    ensures FileRoutes.RequestRole(RecordsQuery(ids, email, name, wallet).role) == "citizen"
    ensures forall x :: x in ids ==> x in FileRoutes.CitizenIds(RecordsQuery(ids, email, name, wallet), users)
  {
    var q := RecordsQuery(ids, email, name, wallet);
    SplitJoin(ids, ',');
    var parts := SplitOn(Join(ids, ','), ',');
    assert seq(|parts|, k requires 0 <= k < |parts| => Trim(parts[k])) == ids;
    assert FileRoutes.ExtraIds(q.ids) == FileRoutes.NonEmpty(ids);
    assert Lower("citizen") == "citizen";
  }

  // ---------------------------------------------------------------- rejection reasons

  datatype RejectionRow = RejectionRow(role: Role, reason: string)

  /** The slot's row when it holds a reject with a non-blank reason, the reason trimmed. */
  function RejectionFor(rd: RoleDecisions, role: Role): (r: seq<RejectionRow>)
    ensures |r| <= 1
    ensures |r| == 1 <==> rd.Get(role).decision == Some(Reject) && !Blank(OrEmpty(rd.Get(role).reason))
    ensures |r| == 1 ==> r[0] == RejectionRow(role, Trim(OrEmpty(rd.Get(role).reason)))
  {
    var slot := rd.Get(role);
    var reason := Trim(OrEmpty(slot.reason));
    if slot.decision == Some(Reject) && reason != "" then [RejectionRow(role, reason)] else []
  }

  /** A row is among the three slots' rows exactly when its own slot holds it. */
  lemma RowAmongSlots(rd: RoleDecisions, row: RejectionRow)
    ensures row in RejectionFor(rd, Registrar) + RejectionFor(rd, Notary) + RejectionFor(rd, LocalAuthority)
      <==> row in RejectionFor(rd, row.role)
  {
    var registrar, notary, localAuthority := RejectionFor(rd, Registrar), RejectionFor(rd, Notary), RejectionFor(rd, LocalAuthority);
    assert row in registrar + notary + localAuthority <==> row in registrar || row in notary || row in localAuthority;
  }

  /** `getRejectionReasons`: each rejecting slot with a non-blank reason, in slot order. */
  function GetRejectionReasons(rd: RoleDecisions): (rows: seq<RejectionRow>)
    ensures |rows| <= 3
    ensures forall i, j :: 0 <= i < j < |rows| ==> Slot(rows[i].role) < Slot(rows[j].role)
    ensures forall row :: row in rows <==>
      && rd.Get(row.role).decision == Some(Reject)
      && row.reason == Trim(OrEmpty(rd.Get(row.role).reason))
      && row.reason != ""
  {
    var rows := RejectionFor(rd, Registrar) + RejectionFor(rd, Notary) + RejectionFor(rd, LocalAuthority);
    assert forall row :: row in rows <==> row in RejectionFor(rd, row.role) by {
      forall row: RejectionRow ensures row in rows <==> row in RejectionFor(rd, row.role) {
        RowAmongSlots(rd, row);
      }
    }
    rows
  }

  /**
   * A reject the review route records for a slot shows up on the citizen's page with
   * the reason the route stored, and the other slots' rows are unchanged.
   */
  lemma RecordedRejectionShown(file: PropertyRecord, role: Role, v: ReviewRoutes.ValidReview,
                               reviewerWallet: Option<string>, now: int)
    requires v.reviewer == ReviewRoutes.SlotReviewer(role) && v.decision == Reject
    requires v.reason != "" && Trim(v.reason) == v.reason
    ensures var after := ReviewRoutes.RecordDecision(file, v.reviewer, ReviewRoutes.DecisionSlot(Reject, v.reason, reviewerWallet, now));
      && RejectionRow(role, v.reason) in GetRejectionReasons(after.roleDecisions)
      && forall row: RejectionRow :: row.role != role ==>
           (row in GetRejectionReasons(after.roleDecisions) <==> row in GetRejectionReasons(file.roleDecisions))
  {
  }

  /** The reason the review route keeps for a reject is already trimmed and non-blank. */
  lemma ValidatedReasonIsTrimmed(req: ReviewRoutes.ReviewRequest)
    requires ReviewRoutes.ValidateReview(req).Ok? && ReviewRoutes.ValidateReview(req).value.decision == Reject
    ensures var v := ReviewRoutes.ValidateReview(req).value;
      v.reason != "" && Trim(v.reason) == v.reason
  {
    TrimIdempotent(OrEmpty(req.rejectionReason));
  }

  // ---------------------------------------------------------------- status text

  /** The status line of a record card, `verifiedOnChain` being the page's own ledger check. */
  function StatusText(status: WorkflowStatus, verified: bool, verifiedOnChain: bool): (text: string)
    ensures text == "Rejected" <==> status == Rejected
    ensures text == "Approved (Pending Chain Push)" <==> status == ApprovedPendingChain
    ensures text == "Verified" <==> status !in {Rejected, ApprovedPendingChain} && (status == Approved || verified || verifiedOnChain)
    ensures text in {"Rejected", "Approved (Pending Chain Push)", "Verified", "Pending / Unverified"}
  {
    if status == Rejected then "Rejected"
    else if status == ApprovedPendingChain then "Approved (Pending Chain Push)"
    else if status == Approved || verified || verifiedOnChain then "Verified"
    else "Pending / Unverified"
  }

  /**
   * On a record the workflow keeps consistent, and before the page's own ledger check,
   * "Verified" is shown exactly when the record is verified.
   */
  lemma StatusTextFollowsVerified(doc: PropertyRecord)
    requires Workflow.Consistent(doc)
    ensures StatusText(doc.workflowStatus, doc.verified, false) == "Verified" <==> doc.verified
  {
  }

  // ---------------------------------------------------------------- chain push

  /** The card offers the push once two reviewers approved and the record awaits the ledger. */
  predicate ShowPushButton(item: PropertyRecord) {
    item.approvalCount >= 2 && item.workflowStatus == ApprovedPendingChain
  }

  datatype PushCheck = NoHash | ConnectWalletFirst | NeedsTwoApprovals | PushAllowed(hash: string)

  /** `handlePushToBlockchain`'s checks: a hash, a connected wallet, two approvals. */
  function PushGuard(item: PropertyRecord, connectedWallet: string): (c: PushCheck)
    ensures c.PushAllowed? <==> !Blank(item.ipfshash) && connectedWallet != "" && item.approvalCount >= 2
    ensures c.PushAllowed? ==> c.hash == Trim(item.ipfshash)
    ensures c == NoHash <==> Blank(item.ipfshash)
  {
    var hash := Trim(item.ipfshash);
    if hash == "" then NoHash
    else if connectedWallet == "" then ConnectWalletFirst
    else if item.approvalCount < 2 then NeedsTwoApprovals
    else PushAllowed(hash)
  }

  /** On a consistent record the button is offered exactly when the record awaits the ledger. */
  lemma PushButtonAwaitsLedger(item: PropertyRecord)
    requires Workflow.Consistent(item)
    ensures ShowPushButton(item) <==> item.workflowStatus == ApprovedPendingChain
  {
  }

  /**
   * Once the button is offered and a wallet is connected, the page's checks let the
   * push through, and the confirmation it then sends under the citizen role is
   * admitted by the route for the record it finds.
   */
  lemma PushButtonReachesConfirm(files: seq<PropertyRecord>, i: nat, connectedWallet: string, txHash: Option<string>)
    requires i < |files| && ShowPushButton(files[i])
    requires Database.FindFile(files, Trim(files[i].ipfshash)) == Some(i)
    requires !Blank(files[i].ipfshash) && connectedWallet != ""
    ensures PushGuard(files[i], connectedWallet) == PushAllowed(Trim(files[i].ipfshash))
    ensures ReviewRoutes.PushGate(files, ReviewRoutes.PushRequest(Some("citizen"), Some(Trim(files[i].ipfshash)), txHash)) == Ok(i)
  {
    assert Lower("citizen") == "citizen";
    TrimIdempotent(files[i].ipfshash);
    var req := ReviewRoutes.PushRequest(Some("citizen"), Some(Trim(files[i].ipfshash)), txHash);
    assert ReviewRoutes.ParseReviewer(req.role) == Some(ReviewRoutes.CitizenReviewer);
    assert Truthy(req.hash) && Database.FindFile(files, Trim(req.hash.value)) == Some(i);
  }

  // ---------------------------------------------------------------- transfer code

  /** The code as typed, trimmed and upper-cased. */
  function EnteredCode(typed: Option<string>): string {
    Upper(Trim(OrEmpty(typed)))
  }

  /** What the resolve route answered: an error message, or the wallet behind the code (possibly none). */
  datatype ResolveResponse = ResolveFailed(message: string) | ResolveAnswered(walletAddress: Option<string>)

  datatype ResolvedBuyer = ResolvedBuyer(code: string, walletAddress: string)

  datatype ResolveCheck =
    | EnterCodeFirst
    | ResolveError(message: string)
    | NoWalletForCode
    | OwnWallet
    | BuyerResolved(buyer: ResolvedBuyer)

  /**
   * `resolveTransferCode`: a code is required before asking the route; the answer
   * must name a wallet, and not the seller's own connected wallet (compared in lower
   * case). The buyer is remembered with the code and the wallet in lower case.
   */
  function ResolveCode(typed: Option<string>, response: ResolveResponse, connectedWallet: string): (c: ResolveCheck)
    ensures c == EnterCodeFirst <==> EnteredCode(typed) == ""
    ensures c.BuyerResolved? <==>
      && EnteredCode(typed) != "" && response.ResolveAnswered? && Truthy(response.walletAddress)
      && Lower(response.walletAddress.value) != connectedWallet
    ensures c.BuyerResolved? ==> c.buyer == ResolvedBuyer(EnteredCode(typed), Lower(response.walletAddress.value))
  {
    var code := EnteredCode(typed);
    if code == "" then EnterCodeFirst
    else
      match response
      case ResolveFailed(message) => ResolveError(message)
      case ResolveAnswered(wallet) =>
        if !Truthy(wallet) then NoWalletForCode
        else if Lower(wallet.value) == connectedWallet then OwnWallet
        else BuyerResolved(ResolvedBuyer(code, Lower(wallet.value)))
  }

  datatype TransferCheck = TransferNeedsCode | ResolveFirst | TransferTo(newOwner: string)

  /**
   * `handleTransfer`'s checks: a code is required, and it must be the code the buyer
   * was resolved with; the new owner is the resolved wallet, trimmed and lower-cased.
   */
  function CheckTransfer(typed: Option<string>, resolved: Option<ResolvedBuyer>): (c: TransferCheck)
    ensures c == TransferNeedsCode <==> EnteredCode(typed) == ""
    ensures c.TransferTo? <==> EnteredCode(typed) != "" && resolved.Some? && resolved.value.code == EnteredCode(typed)
    ensures c.TransferTo? ==> c.newOwner == Lower(Trim(resolved.value.walletAddress))
  {
    var code := EnteredCode(typed);
    if code == "" then TransferNeedsCode
    else if resolved.None? || resolved.value.code != code then ResolveFirst
    else TransferTo(Lower(Trim(resolved.value.walletAddress)))
  }

  /**
   * Resolving a code and then transferring with the same code typed hands the
   * property to the resolved wallet, which is never the seller's connected wallet
   * when the route answered with a trimmed wallet; a different code typed in between
   * asks for a new resolve.
   */
  lemma ResolveThenTransfer(typed: Option<string>, response: ResolveResponse, connectedWallet: string, retyped: Option<string>)
    requires ResolveCode(typed, response, connectedWallet).BuyerResolved?
    ensures var buyer := ResolveCode(typed, response, connectedWallet).buyer;
      && CheckTransfer(typed, Some(buyer)) == TransferTo(Lower(Trim(buyer.walletAddress)))
      && (Trim(response.walletAddress.value) == response.walletAddress.value ==>
            CheckTransfer(typed, Some(buyer)) == TransferTo(buyer.walletAddress) && buyer.walletAddress != connectedWallet)
      && (EnteredCode(retyped) != "" && EnteredCode(retyped) != EnteredCode(typed) ==>
            CheckTransfer(retyped, Some(buyer)) == ResolveFirst)
  {
    var wallet := response.walletAddress.value;
    if Trim(wallet) == wallet {
      LowerTrimCommute(wallet);
      LowerIdempotent(wallet);
    }
  }
}

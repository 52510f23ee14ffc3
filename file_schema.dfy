/**
 * The property-title record kept in the document store: one per uploaded document,
 * with its review state (three role slots, counts and a workflow status), its
 * verification state and its current owner. Times are milliseconds since the epoch.
 */
module FileSchema {
  import opened Wrappers

  /** The two values a role slot's `decision` may hold besides null. */
  datatype Decision = Approve | Reject

  /** The three reviewer slots of `roleDecisions`. */
  datatype Role = Registrar | Notary | LocalAuthority

  /** The slot order of `roleDecisions`, which is also the order `Object.values` yields. */
  const RoleOrder: seq<Role> := [Registrar, Notary, LocalAuthority]

  const AllRoles: set<Role> := {Registrar, Notary, LocalAuthority}

  /** The position of a role's slot in `roleDecisions`. */
  function Slot(role: Role): (k: nat)
    ensures k < |RoleOrder| && RoleOrder[k] == role
  {
    match role
    case Registrar => 0
    case Notary => 1
    case LocalAuthority => 2
  }

  lemma RoleOrderCoversAllRoles()
    ensures forall r: Role :: r in RoleOrder && r in AllRoles
    ensures |RoleOrder| == 3 && |AllRoles| == 3
  {
    forall r: Role ensures r in RoleOrder && r in AllRoles {
      match r
      case Registrar =>
      case Notary =>
      case LocalAuthority =>
    }
  }

  datatype RoleDecision = RoleDecision(
    decision: Option<Decision>,
    reason: Option<string>,
    reviewer: Option<string>,  // the `by` field
    at: Option<int>)

  /** A slot whose four fields are all null: the schema default. */
  const NoDecision: RoleDecision := RoleDecision(None, None, None, None)

  datatype RoleDecisions = RoleDecisions(
    registrar: RoleDecision,
    notary: RoleDecision,
    localAuthority: RoleDecision)
  {
    /** `roleDecisions[role]` */
    function Get(role: Role): RoleDecision {
      match role
      case Registrar => registrar
      case Notary => notary
      case LocalAuthority => localAuthority
    }

    /** `roleDecisions[role] = slot` */
    function Set(role: Role, slot: RoleDecision): (r: RoleDecisions)
      ensures r.Get(role) == slot
      ensures forall other :: other != role ==> r.Get(other) == Get(other)
    {
      match role
      case Registrar => this.(registrar := slot)
      case Notary => this.(notary := slot)
      case LocalAuthority => this.(localAuthority := slot)
    }
  }

  const EmptyDecisions: RoleDecisions := RoleDecisions(NoDecision, NoDecision, NoDecision)

  /** Every slot of the default `roleDecisions` is empty. */
  lemma EmptyDecisionsAreEmpty(role: Role)
    ensures EmptyDecisions.Get(role) == NoDecision
    ensures EmptyDecisions.Get(role).decision == None
  {
  }

  datatype WorkflowStatus = Pending | Approved | Rejected | ApprovedPendingChain {
    /** The string stored in the document. */
    function Name(): string {
      match this
      case Pending => "pending"
      case Approved => "approved"
      case Rejected => "rejected"
      case ApprovedPendingChain => "approved_pending_chain"
    }

    /** `approved` and `rejected` end the review. */
    predicate Final() {
      this == Approved || this == Rejected
    }
  }

  /** Distinct statuses are stored as distinct strings. */
  lemma StatusNamesDistinct(a: WorkflowStatus, b: WorkflowStatus)
    ensures a.Name() == b.Name() <==> a == b
  {
  }

  datatype PropertyRecord = PropertyRecord(
    userId: string,
    filename: string,
    ipfshash: string,
    currentOwnerWallet: Option<string>,
    transferCount: nat,
    lastTransferAt: Option<int>,
    verified: bool,
    verifiedAt: Option<int>,
    verifiedBy: Option<string>,
    workflowStatus: WorkflowStatus,
    approvalCount: nat,
    rejectCount: nat,
    roleDecisions: RoleDecisions,
    chainTxHash: Option<string>,
    chainPushedAt: Option<int>,
    uploadedAt: int)

  /**
   * A new record as the upload route builds it: owner, name, content hash and
   * optional wallet; every other field takes its schema default. The store refuses a
   * record whose required strings are empty.
   */
  function NewRecord(userId: string, filename: string, ipfshash: string, wallet: Option<string>, now: int)
    : (r: Option<PropertyRecord>)
    ensures r.Some? <==> userId != "" && filename != "" && ipfshash != ""
    ensures r.Some? ==>
      && r.value.userId == userId && r.value.filename == filename && r.value.ipfshash == ipfshash
      && r.value.currentOwnerWallet == (if wallet.Some? && wallet.value != "" then wallet else None)
      && r.value.transferCount == 0 && r.value.lastTransferAt == None
      && !r.value.verified && r.value.verifiedAt == None && r.value.verifiedBy == None
      && r.value.workflowStatus == Pending
      && r.value.approvalCount == 0 && r.value.rejectCount == 0
      && (forall role :: r.value.roleDecisions.Get(role) == NoDecision)
      && r.value.chainTxHash == None && r.value.chainPushedAt == None
      && r.value.uploadedAt == now
  {
    if userId == "" || filename == "" || ipfshash == "" then None
    else
      var owner := if wallet.Some? && wallet.value != "" then wallet else None;
      Some(PropertyRecord(userId, filename, ipfshash, owner, 0, None, false, None, None,
        Pending, 0, 0, EmptyDecisions, None, None, now))
  }
}

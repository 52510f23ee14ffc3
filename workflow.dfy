/**
 * Decision reconciliation: the approval and rejection counts and the workflow status
 * a record's three role slots imply, with the 2-of-3 thresholds and reject precedence.
 */
module Workflow {
  import opened Wrappers
  import opened FileSchema

  /** The roles whose slot holds decision `d`: the reference the counts are checked against. */
  function RolesWith(rd: RoleDecisions, d: Decision): set<Role> {
    set r | r in AllRoles && rd.Get(r).decision == Some(d)
  }

  /** How many of `roles` have decision `d` in `rd`; null slots count for nothing. */
  function CountIn(roles: seq<Role>, rd: RoleDecisions, d: Decision): nat {
    if |roles| == 0 then 0
    else (if rd.Get(roles[0]).decision == Some(d) then 1 else 0) + CountIn(roles[1..], rd, d)
  }

  /** The roles among `roles` whose slot holds decision `d`. */
  function Matching(roles: seq<Role>, rd: RoleDecisions, d: Decision): set<Role> {
    set r | r in roles && rd.Get(r).decision == Some(d)
  }

  lemma MatchingCons(roles: seq<Role>, rd: RoleDecisions, d: Decision)
    requires |roles| > 0
    ensures Matching(roles, rd, d) ==
      (if rd.Get(roles[0]).decision == Some(d) then {roles[0]} else {}) + Matching(roles[1..], rd, d)
  {
    assert roles == [roles[0]] + roles[1..];
  }

  /** Counting along a list of distinct roles gives the size of the matching set. */
  lemma {:induction false} CountInIsCard(roles: seq<Role>, rd: RoleDecisions, d: Decision)
    requires forall i, j :: 0 <= i < j < |roles| ==> roles[i] != roles[j]
    ensures CountIn(roles, rd, d) == |Matching(roles, rd, d)|
  {
    if |roles| > 0 {
      var rest := roles[1..];
      CountInIsCard(rest, rd, d);
      MatchingCons(roles, rd, d);
      assert roles[0] !in Matching(rest, rd, d) by {
        forall j | 0 <= j < |rest|
          ensures rest[j] != roles[0]
        {
          assert rest[j] == roles[j + 1];
        }
      }
    }
  }

  /** A role has at most one decision, so along any list the two counts never exceed its length. */
  lemma {:induction false} CountsBounded(roles: seq<Role>, rd: RoleDecisions)
    ensures CountIn(roles, rd, Approve) + CountIn(roles, rd, Reject) <= |roles|
  {
    if |roles| > 0 {
      CountsBounded(roles[1..], rd);
    }
  }

  datatype DecisionStats = DecisionStats(approvalCount: nat, rejectCount: nat)

  /** `computeDecisionStats`: counts the approve and reject values among the three slots. */
  function ComputeDecisionStats(rd: RoleDecisions): (s: DecisionStats)
    ensures s.approvalCount == |RolesWith(rd, Approve)|
    ensures s.rejectCount == |RolesWith(rd, Reject)|
    ensures s.approvalCount + s.rejectCount <= 3
  {
    CountInIsCard(RoleOrder, rd, Approve);
    CountInIsCard(RoleOrder, rd, Reject);
    CountsBounded(RoleOrder, rd);
    RoleOrderCoversAllRoles();
    assert Matching(RoleOrder, rd, Approve) == RolesWith(rd, Approve);
    assert Matching(RoleOrder, rd, Reject) == RolesWith(rd, Reject);
    DecisionStats(CountIn(RoleOrder, rd, Approve), CountIn(RoleOrder, rd, Reject))
  }

  /**
   * The state reconciliation establishes: counts match the slots, two rejects mean
   * `rejected` and unverified, otherwise two approvals mean `approved` when verified
   * and `approved_pending_chain` when not, otherwise `pending`, and an unverified
   * pending record carries no verification time or verifier.
   */
  predicate Consistent(doc: PropertyRecord) {
    && doc.approvalCount == |RolesWith(doc.roleDecisions, Approve)|
    && doc.rejectCount == |RolesWith(doc.roleDecisions, Reject)|
    && (doc.rejectCount >= 2 ==>
          doc.workflowStatus == Rejected && !doc.verified && doc.verifiedAt == None && doc.verifiedBy == None)
    && (doc.rejectCount < 2 && doc.approvalCount >= 2 ==>
          doc.workflowStatus == (if doc.verified then Approved else ApprovedPendingChain))
    && (doc.rejectCount < 2 && doc.approvalCount < 2 ==>
          doc.workflowStatus == Pending && (!doc.verified ==> doc.verifiedAt == None && doc.verifiedBy == None))
  }

  /**
   * `reconcileWorkflowState`: recomputes the counts and the status from the slots.
   * Only the counts, the status and the three verification fields may change; below
   * two rejects `verified` is kept, and the verification time and verifier are only
   * cleared on an unverified pending record.
   */
  function Reconcile(doc: PropertyRecord): (r: PropertyRecord)
    ensures Consistent(r)
    ensures r.roleDecisions == doc.roleDecisions
    ensures r == doc.(approvalCount := r.approvalCount, rejectCount := r.rejectCount,
                      workflowStatus := r.workflowStatus, verified := r.verified,
                      verifiedAt := r.verifiedAt, verifiedBy := r.verifiedBy)
    ensures r.rejectCount < 2 ==> r.verified == doc.verified
    ensures r.rejectCount < 2 && (r.workflowStatus != Pending || doc.verified) ==>
      r.verifiedAt == doc.verifiedAt && r.verifiedBy == doc.verifiedBy
  {
    var stats := ComputeDecisionStats(doc.roleDecisions);
    var counted := doc.(approvalCount := stats.approvalCount, rejectCount := stats.rejectCount);
    if stats.rejectCount >= 2 then
      counted.(workflowStatus := Rejected, verified := false, verifiedAt := None, verifiedBy := None)
    else if stats.approvalCount >= 2 then
      counted.(workflowStatus := if counted.verified then Approved else ApprovedPendingChain)
    else if !counted.verified then
      counted.(workflowStatus := Pending, verifiedAt := None, verifiedBy := None)
    else
      counted.(workflowStatus := Pending)
  }

  /** `reconcileWorkflowState` as written: the counts first, then the status and verification fields, with early returns. */
  method ReconcileWorkflowState(doc: PropertyRecord) returns (r: PropertyRecord)
    ensures r == Reconcile(doc)
  {
    var stats := ComputeDecisionStats(doc.roleDecisions);
    r := doc.(approvalCount := stats.approvalCount, rejectCount := stats.rejectCount);
    if stats.rejectCount >= 2 {
      r := r.(workflowStatus := Rejected, verified := false, verifiedAt := None, verifiedBy := None);
      return;
    }
    if stats.approvalCount >= 2 {
      r := r.(workflowStatus := if r.verified then Approved else ApprovedPendingChain);
      return;
    }
    r := r.(workflowStatus := Pending);
    if !r.verified {
      r := r.(verifiedAt := None, verifiedBy := None);
    }
  }

  /** Filling one slot changes the set of roles with a decision only at that role. */
  lemma RolesWithAfterSet(rd: RoleDecisions, role: Role, slot: RoleDecision, d: Decision)
    ensures RolesWith(rd.Set(role, slot), d) ==
      (RolesWith(rd, d) - {role}) + (if slot.decision == Some(d) then {role} else {})
  {
  }

  /** Filling an empty slot with decision `d` adds exactly one to the count of `d` and leaves the other count alone. */
  lemma FillEmptySlot(rd: RoleDecisions, role: Role, slot: RoleDecision, d: Decision, other: Decision)
    requires rd.Get(role).decision == None && slot.decision == Some(d) && other != d
    ensures |RolesWith(rd.Set(role, slot), d)| == |RolesWith(rd, d)| + 1
    ensures RolesWith(rd.Set(role, slot), other) == RolesWith(rd, other)
  {
    RolesWithAfterSet(rd, role, slot, d);
    RolesWithAfterSet(rd, role, slot, other);
    assert role !in RolesWith(rd, d);
    assert role !in RolesWith(rd, other);
    assert RolesWith(rd, d) - {role} == RolesWith(rd, d);
  }

  /** A record is left alone by reconciliation exactly when it is already consistent. */
  lemma ReconcileFixpoint(doc: PropertyRecord)
    ensures Reconcile(doc) == doc <==> Consistent(doc)
  {
    if Consistent(doc) {
      var r := Reconcile(doc);
      assert r.approvalCount == doc.approvalCount && r.rejectCount == doc.rejectCount;
    }
  }

  /** Reconciling twice is the same as reconciling once. */
  lemma ReconcileIdempotent(doc: PropertyRecord)
    ensures Reconcile(Reconcile(doc)) == Reconcile(doc)
  {
    ReconcileFixpoint(Reconcile(doc));
  }

  /** Two rejects decide the outcome whatever the approvals are. */
  lemma RejectPrecedence(doc: PropertyRecord)
    requires |RolesWith(doc.roleDecisions, Reject)| >= 2
    ensures Reconcile(doc).workflowStatus == Rejected
    ensures !Reconcile(doc).verified
    ensures Reconcile(doc).verifiedAt == None && Reconcile(doc).verifiedBy == None
  {
  }

  /** Each role decides once, so a consistent record has at most three decisions counted. */
  lemma ConsistentCountsBounded(doc: PropertyRecord)
    requires Consistent(doc)
    ensures doc.approvalCount + doc.rejectCount <= 3
    ensures !(doc.approvalCount >= 2 && doc.rejectCount >= 2)
  {
    var _ := ComputeDecisionStats(doc.roleDecisions);
  }

  /** A record with no decision in any slot, no counts, pending and unverified is consistent. */
  lemma FreshReviewConsistent(doc: PropertyRecord)
    requires doc.roleDecisions == EmptyDecisions && doc.approvalCount == 0 && doc.rejectCount == 0
    requires doc.workflowStatus == Pending && !doc.verified && doc.verifiedAt == None && doc.verifiedBy == None
    ensures Consistent(doc)
  {
    assert RolesWith(EmptyDecisions, Approve) == {};
    assert RolesWith(EmptyDecisions, Reject) == {};
  }

  /** A freshly uploaded record needs no reconciliation. */
  lemma NewRecordConsistent(userId: string, filename: string, ipfshash: string, wallet: Option<string>, now: int)
    requires NewRecord(userId, filename, ipfshash, wallet, now).Some?
    ensures Consistent(NewRecord(userId, filename, ipfshash, wallet, now).value)
  {
    FreshReviewConsistent(NewRecord(userId, filename, ipfshash, wallet, now).value);
  }
}

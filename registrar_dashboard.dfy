/**
 * The reviewers' page: how it shortens hashes and wallets for display, which role it
 * believes the reviewer holds, when it disables the review buttons, the rejection
 * reason it sends, how many real transfers a property's ledger history shows, and the
 * order in which it lists the reviewers' decisions.
 */
module RegistrarDashboard {
  import opened Wrappers
  import opened Text
  import opened FileSchema
  import FileRoutes
  import ReviewRoutes
  import Workflow

  // ---------------------------------------------------------------- shortened values

  /**
   * The trimmed text, "-" when it is blank, itself when it has at most `limit`
   * characters, and otherwise its first `head` and last `tail` characters around "...".
   */
  function Abbreviate(raw: Option<string>, limit: nat, head: nat, tail: nat): (r: string)
    requires head + tail <= limit
    ensures Blank(OrEmpty(raw)) ==> r == "-"
    ensures !Blank(OrEmpty(raw)) && |Trim(OrEmpty(raw))| <= limit ==> r == Trim(OrEmpty(raw))
    ensures |Trim(OrEmpty(raw))| > limit ==>
      var value := Trim(OrEmpty(raw));
      && |r| == head + 3 + tail
      && r[..head] == value[..head]
      && r[head..head + 3] == "..."
      && r[head + 3..] == value[|value| - tail..]
  {
    var value := Trim(OrEmpty(raw));
    if value == "" then "-"
    else if |value| <= limit then value
    else value[..head] + "..." + value[|value| - tail..]
  }

  /** A content hash for display: at most 14 characters shown whole, else 8 … 6. */
  function MaskHash(hash: Option<string>): string {
    Abbreviate(hash, 14, 8, 6)
  }

  /** A wallet or transaction hash for display: at most 10 characters shown whole, else 4 … 4. */
  function MaskValue(value: Option<string>): string {
    Abbreviate(value, 10, 4, 4)
  }

  /**
   * Shortening an already shortened text changes nothing, as long as the short form
   * is longer than the limit and keeps at least one character at each end.
   */
  lemma AbbreviateIdempotent(raw: Option<string>, limit: nat, head: nat, tail: nat)
    requires head + tail <= limit < head + 3 + tail
    requires 1 <= head && 1 <= tail
    ensures Abbreviate(Some(Abbreviate(raw, limit, head, tail)), limit, head, tail) == Abbreviate(raw, limit, head, tail)
  {
    var value := Trim(OrEmpty(raw));
    var r := Abbreviate(raw, limit, head, tail);
    if value == "" {
      assert r == "-";
      assert Trim("-") == "-";
    } else if |value| <= limit {
      TrimIdempotent(OrEmpty(raw));
    } else {
      assert r[0] == value[0] && r[|r| - 1] == value[|value| - 1];
      assert Trim(r) == r;
      assert r[|r| - tail..] == value[|value| - tail..];
      assert r == r[..head] + "..." + r[|r| - tail..];
    }
  }

  /** The hash and wallet masks are idempotent, and a hash of at most 14 characters is shown whole. */
  lemma MasksIdempotent(raw: Option<string>)
    ensures MaskHash(Some(MaskHash(raw))) == MaskHash(raw)
    ensures MaskValue(Some(MaskValue(raw))) == MaskValue(raw)
  {
    AbbreviateIdempotent(raw, 14, 8, 6);
    AbbreviateIdempotent(raw, 10, 4, 4);
  }

  // ---------------------------------------------------------------- the reviewer's role

  /** The role as stored, trimmed: the page sends it as is in the role header and body. */
  function CurrentRole(stored: Option<string>): string {
    Trim(OrEmpty(stored))
  }

  /** The role the page compares with the reviewer roles: `localAuthority` spelled in lower case, others lower-cased. */
  function NormalizedRole(stored: Option<string>): string {
    var current := CurrentRole(stored);
    if current == "localAuthority" then "localauthority" else Lower(current)
  }

  predicate IsReviewerRole(stored: Option<string>) {
    NormalizedRole(stored) in {"registrar", "notary", "localauthority"}
  }

  /**
   * The page's special case for `localAuthority` is what lower-casing gives anyway, and
   * the page treats a role as a reviewer's exactly when the routes do for the role it
   * sends.
   */
  lemma ReviewerRoleAgreesWithRoutes(stored: Option<string>)
    ensures NormalizedRole(stored) == Lower(CurrentRole(stored))
    ensures IsReviewerRole(stored) <==> FileRoutes.IsReviewerQuery(Some(CurrentRole(stored)))
    ensures IsReviewerRole(stored) <==>
      (ReviewRoutes.ParseReviewer(Some(CurrentRole(stored))).Some? &&
       ReviewRoutes.ParseReviewer(Some(CurrentRole(stored))).value.SlotReviewer?)
  {
    if CurrentRole(stored) == "localAuthority" {
      assert Lower("localAuthority") == "localauthority";
    }
  }

  // ---------------------------------------------------------------- review buttons

  /** The key of each slot in the stored `roleDecisions` object. */
  function SlotKey(role: Role): string {
    match role
    case Registrar => "registrar"
    case Notary => "notary"
    case LocalAuthority => "localAuthority"
  }

  /** `roleDecisions[key]`: the slot stored under exactly that key, if any. */
  function SlotForKey(key: string): (r: Option<Role>)
    ensures r.Some? <==> key in {"registrar", "notary", "localAuthority"}
    ensures r.Some? ==> SlotKey(r.value) == key
  {
    if key == "registrar" then Some(Registrar)
    else if key == "notary" then Some(Notary)
    else if key == "localAuthority" then Some(LocalAuthority)
    else None
  }

  /**
   * Approve and Reject are disabled for a non-reviewer, on a final record, while this
   * record's request is in flight, and when the slot stored under the current role's
   * own spelling already holds a decision.
   */
  predicate ReviewButtonsDisabled(stored: Option<string>, item: PropertyRecord, processingHash: string) {
    || !IsReviewerRole(stored)
    || item.workflowStatus == Approved
    || item.workflowStatus == Rejected
    || processingHash == item.ipfshash
    || (SlotForKey(CurrentRole(stored)).Some? && item.roleDecisions.Get(SlotForKey(CurrentRole(stored)).value).decision.Some?)
  }

  /**
   * For a reviewer whose stored role is the slot's own key, the buttons are enabled
   * exactly when the routes would record a new decision for that slot on a consistent
   * record: it is not final and the slot is empty (and nothing is in flight).
   */
  lemma ReviewButtonsMatchRoutes(role: Role, item: PropertyRecord, processingHash: string)
    requires Workflow.Consistent(item)
    ensures var stored := Some(SlotKey(role));
      && ReviewRoutes.ParseReviewer(Some(CurrentRole(stored))) == Some(ReviewRoutes.SlotReviewer(role))
      && (ReviewButtonsDisabled(stored, item, processingHash) <==>
            || Workflow.Reconcile(item).workflowStatus.Final()
            || processingHash == item.ipfshash
            || ReviewRoutes.ExistingDecision(Workflow.Reconcile(item), ReviewRoutes.SlotReviewer(role)).Some?)
  {
    SlotKeyIsReviewer(role);
    Workflow.ReconcileFixpoint(item);
    assert Workflow.Reconcile(item) == item;
  }

  /** A slot's own key names a reviewer, both for the page and for the routes, and finds that slot. */
  lemma SlotKeyIsReviewer(role: Role)
    ensures CurrentRole(Some(SlotKey(role))) == SlotKey(role)
    ensures IsReviewerRole(Some(SlotKey(role)))
    ensures SlotForKey(SlotKey(role)) == Some(role)
    ensures ReviewRoutes.ParseReviewer(Some(SlotKey(role))) == Some(ReviewRoutes.SlotReviewer(role))
  {
    var key := SlotKey(role);
    assert !IsSpace(key[0]) && !IsSpace(key[|key| - 1]);
    match role
    case Registrar => assert Lower(key) == "registrar";
    case Notary => assert Lower(key) == "notary";
    case LocalAuthority => assert Lower(key) == "localauthority";
  }

  // ---------------------------------------------------------------- rejection reason

  /** The reason typed at the prompt: none when cancelled or blank, else trimmed. */
  function RejectReason(typed: Option<string>): (r: Option<string>)
    ensures r.Some? <==> typed.Some? && !Blank(typed.value)
    ensures r.Some? ==> r.value == Trim(typed.value) && r.value != ""
  {
    if typed.None? || Blank(typed.value) then None else Some(Trim(typed.value))
  }

  /** The body of the review request the page sends. */
  function ReviewRequestFor(stored: Option<string>, hash: string, wallet: Option<string>, decision: string, reason: string)
    : ReviewRoutes.ReviewRequest
  {
    ReviewRoutes.ReviewRequest(Some(CurrentRole(stored)), Some(hash), OrNull(wallet), Some(decision),
                               if reason == "" then None else Some(reason))
  }

  /**
   * A rejection the page lets through passes the route's request checks for a reviewer
   * and a non-empty hash, and the route records the reason the page sent.
   */
  lemma RejectReasonAccepted(stored: Option<string>, hash: string, wallet: Option<string>, typed: Option<string>)
    requires IsReviewerRole(stored) && hash != ""
    requires RejectReason(typed).Some?
    ensures var v := ReviewRoutes.ValidateReview(ReviewRequestFor(stored, hash, wallet, "reject", RejectReason(typed).value));
      && v.Ok? && v.value.decision == Reject && v.value.reason == RejectReason(typed).value
  {
    ReviewerRoleAgreesWithRoutes(stored);
    TrimIdempotent(typed.value);
    assert Lower("reject") == "reject";
  }

  // ---------------------------------------------------------------- ledger history

  /** One `(from, to)` entry of the ledger's transfer history; either side may be missing. */
  datatype HistoryRecord = HistoryRecord(from: Option<string>, to: Option<string>)

  /** A real transfer: both sides present and neither the zero address, compared in lower case. */
  predicate IsTransfer(rec: HistoryRecord) {
    var from := Lower(OrEmpty(rec.from));
    var to := Lower(OrEmpty(rec.to));
    from != "" && to != "" && from != ZeroAddress && to != ZeroAddress
  }

  /** How many entries of the history are real transfers. */
  function TransferHistoryCount(history: seq<HistoryRecord>): (n: nat)
    ensures n <= |history|
    ensures n == |history| <==> forall k :: 0 <= k < |history| ==> IsTransfer(history[k])
    ensures n == 0 <==> forall k :: 0 <= k < |history| ==> !IsTransfer(history[k])
  {
    if history == [] then 0
    else
      var rest := TransferHistoryCount(history[1..]);
      assert forall k :: 1 <= k < |history| ==> history[k] == history[1..][k - 1];
      (if IsTransfer(history[0]) then 1 else 0) + rest
  }

  /** The count over a history that grew is the count before plus the count of the new entries. */
  lemma {:induction false} TransferHistoryCountAppend(before: seq<HistoryRecord>, added: seq<HistoryRecord>)
    ensures TransferHistoryCount(before + added) == TransferHistoryCount(before) + TransferHistoryCount(added)
  {
    if before != [] {
      assert (before + added)[1..] == before[1..] + added;
      TransferHistoryCountAppend(before[1..], added);
    } else {
      assert before + added == added;
    }
  }

  /** The registration entry (from the zero address) is never counted as a transfer. */
  lemma MintIsNotTransfer(to: Option<string>)
    ensures !IsTransfer(HistoryRecord(Some(ZeroAddress), to))
  {
    assert Lower(ZeroAddress) == ZeroAddress;
  }

  // ---------------------------------------------------------------- decision timeline

  /** One decided slot as the timeline lists it. */
  datatype TimelineRow = TimelineRow(role: Role, decision: Decision, reason: Option<string>, reviewer: Option<string>, at: int)

  function RoleIndex(role: Role): nat {
    match role
    case Registrar => 0
    case Notary => 1
    case LocalAuthority => 2
  }

  /** The slot's row when it holds a decision and a time, with blank strings as nulls. */
  function RowFor(rd: RoleDecisions, role: Role): (r: seq<TimelineRow>)
    ensures |r| <= 1
    ensures |r| == 1 <==> rd.Get(role).decision.Some? && rd.Get(role).at.Some?
    ensures |r| == 1 ==>
      r[0] == TimelineRow(role, rd.Get(role).decision.value, OrNull(rd.Get(role).reason), OrNull(rd.Get(role).reviewer), rd.Get(role).at.value)
  {
    var slot := rd.Get(role);
    if slot.decision.Some? && slot.at.Some? then
      [TimelineRow(role, slot.decision.value, OrNull(slot.reason), OrNull(slot.reviewer), slot.at.value)]
    else []
  }

  /** The decided slots in the object's key order: registrar, notary, local authority. */
  function DecidedRows(rd: RoleDecisions): (rows: seq<TimelineRow>)
    ensures forall i, j :: 0 <= i < j < |rows| ==> RoleIndex(rows[i].role) < RoleIndex(rows[j].role)
    ensures forall row :: row in rows <==> row in RowFor(rd, row.role)
  {
    RowFor(rd, Registrar) + RowFor(rd, Notary) + RowFor(rd, LocalAuthority)
  }

  /** Earlier time first; at the same time, the earlier slot first (the sort is stable). */
  predicate Precedes(a: TimelineRow, b: TimelineRow) {
    a.at < b.at || (a.at == b.at && RoleIndex(a.role) < RoleIndex(b.role))
  }

  predicate Chronological(rows: seq<TimelineRow>) {
    forall i, j :: 0 <= i < j < |rows| ==> Precedes(rows[i], rows[j])
  }

  /** Places a row after every row whose time is not later: the step of a stable insertion sort. */
  function InsertByTime(sorted: seq<TimelineRow>, row: TimelineRow): (r: seq<TimelineRow>)
    requires Chronological(sorted)
    requires forall x :: x in sorted ==> RoleIndex(x.role) < RoleIndex(row.role)
    ensures Chronological(r)
    ensures multiset(r) == multiset(sorted) + multiset{row}
    ensures forall x :: x in r ==> x in sorted || x == row
  {
    if sorted == [] then [row]
    else
      var last := sorted[|sorted| - 1];
      if last.at <= row.at then
        AppendLatest(sorted, row);
        sorted + [row]
      else
        var init := sorted[..|sorted| - 1];
        assert sorted == init + [last];
        var placed := InsertByTime(init, row);
        AppendLatest(placed, last);
        placed + [last]
  }

  /** A row that every row of a chronological list precedes may be appended to it. */
  lemma AppendLatest(rows: seq<TimelineRow>, row: TimelineRow)
    requires Chronological(rows)
    requires forall x :: x in rows ==> Precedes(x, row)
    ensures Chronological(rows + [row])
  {
  }

  /** A stable sort by time of rows given in slot order. */
  function SortByTime(rows: seq<TimelineRow>): (r: seq<TimelineRow>)
    requires forall i, j :: 0 <= i < j < |rows| ==> RoleIndex(rows[i].role) < RoleIndex(rows[j].role)
    ensures Chronological(r)
    ensures multiset(r) == multiset(rows)
  {
    if rows == [] then []
    else
      var init := rows[..|rows| - 1];
      var sortedInit := SortByTime(init);
      assert rows == init + [rows[|rows| - 1]];
      assert forall x :: x in sortedInit ==> x in multiset(init);
      InsertByTime(sortedInit, rows[|rows| - 1])
  }

  /** `decisionRows`: the decided slots, earliest decision first. */
  function DecisionTimeline(rd: RoleDecisions): seq<TimelineRow> {
    SortByTime(DecidedRows(rd))
  }

  /**
   * The timeline lists each slot that holds a decision and a time exactly once, with
   * that slot's decision, reason, reviewer and time, in order of time and, at equal
   * times, in slot order.
   */
  lemma DecisionTimelineOrdered(rd: RoleDecisions, role: Role)
    ensures Chronological(DecisionTimeline(rd))
    ensures multiset(DecisionTimeline(rd)) == multiset(DecidedRows(rd))
    ensures (exists row :: row in DecisionTimeline(rd) && row.role == role) <==>
      rd.Get(role).decision.Some? && rd.Get(role).at.Some?
    ensures forall row :: row in DecisionTimeline(rd) && row.role == role ==>
      row == TimelineRow(role, rd.Get(role).decision.value, OrNull(rd.Get(role).reason),
                         OrNull(rd.Get(role).reviewer), rd.Get(role).at.value)
    ensures |DecisionTimeline(rd)| <= 3
  {
    var rows := DecidedRows(rd);
    SameMultisetSameRows(DecisionTimeline(rd), rows);
    if rd.Get(role).decision.Some? && rd.Get(role).at.Some? {
      assert RowFor(rd, role)[0] in rows;
    }
  }

  /** Two lists with the same multiset of rows hold the same rows and have the same length. */
  lemma SameMultisetSameRows(a: seq<TimelineRow>, b: seq<TimelineRow>)
    requires multiset(a) == multiset(b)
    ensures forall x :: x in a <==> x in b
    ensures |a| == |b|
  {
    assert |a| == |multiset(a)| == |multiset(b)| == |b|;
    forall x ensures x in a <==> x in b {
      assert x in a <==> x in multiset(a);
      assert x in b <==> x in multiset(b);
    }
  }
}

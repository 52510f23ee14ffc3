/**
 * The browser's small shared helpers: the role kept in local storage and the home page
 * it leads to, the label of a ledger status code, the list of every property the
 * ledger holds, and the ledger's ownership history with readable times.
 */
module FrontendUtils {
  import opened Wrappers
  import opened Ledger

  // ---------------------------------------------------------------- stored role

  /** The four roles an account may hold, in the spelling the store and the routes use. */
  const ValidRoles: set<string> := {"citizen", "registrar", "notary", "localAuthority"}

  /** The role kept in local storage, or null when it is missing or not one of the four. */
  function GetStoredRole(stored: Option<string>): (r: Option<string>)
    ensures r.Some? <==> stored.Some? && stored.value in ValidRoles
    ensures r.Some? ==> r == stored
  {
    if stored.Some? && stored.value in ValidRoles then stored else None
  }

  /** The page each role starts on; any other value leads to the login page. */
  function GetHomePathForRole(role: Option<string>): (path: string)
    ensures path in {"/citizen", "/registrar", "/notary", "/local-authority", "/login"}
  {
    if role == Some("citizen") then "/citizen"
    else if role == Some("registrar") then "/registrar"
    else if role == Some("notary") then "/notary"
    else if role == Some("localAuthority") then "/local-authority"
    else "/login"
  }

  /**
   * A stored role leads away from the login page exactly when it is valid, and two
   * valid roles never share a home page.
   */
  lemma HomePathSeparatesRoles(a: Option<string>, b: Option<string>)
    ensures GetHomePathForRole(GetStoredRole(a)) != "/login" <==> GetStoredRole(a).Some?
    ensures GetStoredRole(a).Some? && GetStoredRole(b).Some? ==>
      (GetHomePathForRole(GetStoredRole(a)) == GetHomePathForRole(GetStoredRole(b)) <==> a == b)
  {
  }

  /**
   * The home page ignores spellings other than the stored one: the lower-case
   * `localauthority` the routes accept leads to the login page.
   */
  lemma HomePathIsCaseSensitive()
    ensures GetHomePathForRole(Some("localauthority")) == "/login"
    ensures GetHomePathForRole(Some("Registrar")) == "/login"
    ensures GetHomePathForRole(Some("localAuthority")) == "/local-authority"
  {
  }

  // ---------------------------------------------------------------- status labels

  /** The ledger's status codes as the pages name them. */
  function StatusLabel(status: int): (name: string)
    ensures name == "Pending" <==> status == 0
    ensures name == "Rejected" <==> status == 1
    ensures name == "Registered" <==> status == 2
    ensures name == "Unknown" <==> status !in {0, 1, 2}
  {
    if status == 0 then "Pending"
    else if status == 1 then "Rejected"
    else if status == 2 then "Registered"
    else "Unknown"
  }

  // ---------------------------------------------------------------- every property

  /**
   * The rows `properties(1)` … `properties(n)`, in id order; null when any read fails,
   * since one failed read fails the whole batch.
   */
  function FetchRange(chain: Chain, n: nat): (rows: Option<seq<Row>>)
    ensures rows.Some? <==> forall id :: 1 <= id <= n ==> chain.CallProperties(id).Some?
    ensures rows.Some? ==> |rows.value| == n
    ensures rows.Some? ==> forall k :: 0 <= k < n ==> Some(rows.value[k]) == chain.CallProperties(k + 1)
  {
    if n == 0 then Some([])
    else
      match FetchRange(chain, n - 1)
      case None => None
      case Some(init) =>
        match chain.CallProperties(n)
        case None => None
        case Some(row) => Some(init + [row])
  }

  /** The rows of real properties: an unused id reads back as a row with id 0. */
  function RealRows(rows: seq<Row>): (r: seq<Row>)
    ensures forall x :: x in r <==> x in rows && x.id > 0
    ensures |r| <= |rows|
  {
    if rows == [] then []
    else
      var rest := RealRows(rows[1..]);
      assert forall x :: x in rows <==> x == rows[0] || x in rows[1..];
      if rows[0].id > 0 then [rows[0]] + rest else rest
  }

  /**
   * `getAllProperties`: reads the counter, then every id from 1 to the counter, and
   * keeps the real rows; null stands for the error a failed read raises.
   */
  function GetAllProperties(chain: Chain): Option<seq<Row>> {
    match chain.CallPropertyCounter()
    case None => None
    case Some(count) =>
      if count == 0 then Some([])
      else
        match FetchRange(chain, count)
        case None => None
        case Some(rows) => Some(RealRows(rows))
  }

  /**
   * The list holds exactly the real rows stored under the ids 1 to the counter, and it
   * is produced exactly when the counter and each of those reads succeed.
   */
  lemma AllPropertiesListsLedger(chain: Chain, row: Row)
    ensures GetAllProperties(chain).Some? <==>
      chain.CallPropertyCounter().Some? &&
      forall id :: 1 <= id <= chain.CallPropertyCounter().value ==> chain.CallProperties(id).Some?
    ensures GetAllProperties(chain).Some? ==>
      (row in GetAllProperties(chain).value <==>
         row.id > 0 && exists id :: 1 <= id <= chain.CallPropertyCounter().value && chain.CallProperties(id) == Some(row))
  {
    if GetAllProperties(chain).Some? {
      var count := chain.CallPropertyCounter().value;
      if count > 0 {
        var rows := FetchRange(chain, count).value;
        if row.id > 0 && exists id :: 1 <= id <= count && chain.CallProperties(id) == Some(row) {
          var id :| 1 <= id <= count && chain.CallProperties(id) == Some(row);
          assert rows[id - 1] == row;
        }
        if row in rows {
          var k :| 0 <= k < |rows| && rows[k] == row;
          assert chain.CallProperties(k + 1) == Some(row);
        }
      }
    }
  }

  // ---------------------------------------------------------------- ownership history

  /** One `(owner, timestamp)` entry of the ledger's ownership history; the time is in seconds. */
  datatype OwnershipRecord = OwnershipRecord(owner: string, timestamp: int)

  datatype OwnershipEntry = OwnershipEntry(owner: string, timestamp: int, readableTime: string)

  /**
   * A timestamp in the browser's local format, or "-" when it is not positive; the
   * local formatting of a time in milliseconds is a parameter.
   */
  function ReadableTime(timestamp: int, localeString: int -> string): string {
    if timestamp > 0 then localeString(timestamp * 1000) else "-"
  }

  /** `getOwnershipHistory`: the ledger's entries in order, each with its readable time. */
  function OwnershipHistory(records: seq<OwnershipRecord>, localeString: int -> string): (entries: seq<OwnershipEntry>)
    ensures |entries| == |records|
    ensures forall k :: 0 <= k < |records| ==>
      && entries[k].owner == records[k].owner
      && entries[k].timestamp == records[k].timestamp
      && (records[k].timestamp <= 0 ==> entries[k].readableTime == "-")
      && (records[k].timestamp > 0 ==> entries[k].readableTime == localeString(records[k].timestamp * 1000))
  {
    seq(|records|, k requires 0 <= k < |records| =>
      OwnershipEntry(records[k].owner, records[k].timestamp, ReadableTime(records[k].timestamp, localeString)))
  }
}

/**
 * Accounts: a citizen identified by a 12-digit Aadhaar number, or a reviewer
 * (registrar, notary, local authority) identified by an employee ID; each may link
 * one wallet. Identifiers and wallets are unique where present.
 */
module UserSchema {
  import opened Wrappers
  import opened Text

  datatype AccountRole = Citizen | Registrar | Notary | LocalAuthority {
    /** The string stored in the document. */
    function Name(): string {
      match this
      case Citizen => "citizen"
      case Registrar => "registrar"
      case Notary => "notary"
      case LocalAuthority => "localAuthority"
    }
  }

  /** The role enum: exactly the four names above, compared case-sensitively. */
  function ParseAccountRole(s: string): (r: Option<AccountRole>)
    ensures r.Some? ==> r.value.Name() == s
    ensures r.None? ==> forall a: AccountRole :: a.Name() != s
  {
    if s == "citizen" then Some(Citizen)
    else if s == "registrar" then Some(Registrar)
    else if s == "notary" then Some(Notary)
    else if s == "localAuthority" then Some(LocalAuthority)
    else None
  }

  /** Every role's stored name parses back to that role. */
  lemma ParseAccountRoleRoundTrip(a: AccountRole)
    ensures ParseAccountRole(a.Name()) == Some(a)
  {
  }

  /** `/^[0-9]{12}$/` */
  predicate IsAadhaar(s: string) {
    |s| == 12 && forall k :: 0 <= k < |s| ==> IsDigit(s[k])
  }

  /** An Aadhaar number has no white space to trim. */
  lemma AadhaarIsTrimmed(s: string)
    requires IsAadhaar(s)
    ensures Trim(s) == s
  {
    assert IsDigit(s[0]) && IsDigit(s[11]);
  }

  /**
   * `maskAadhaar`: the digits of the value, when there are exactly twelve of them, with
   * the first eight replaced by `X`; otherwise null.
   */
  function MaskAadhaar(value: Option<string>): (r: Option<string>)
    ensures r.Some? <==> |DigitsOnly(OrEmpty(value))| == 12
    ensures r.Some? ==> |r.value| == 12 && forall k :: 0 <= k < 8 ==> r.value[k] == 'X'
  {
    var raw := DigitsOnly(OrEmpty(value));
    if |raw| != 12 then None else Some("XXXXXXXX" + raw[8..])
  }

  /**
   * On a stored Aadhaar number the mask shows exactly its last four digits, so two
   * numbers that end alike cannot be told apart from their masks.
   */
  lemma MaskShowsLastFour(a: string, b: string)
    requires IsAadhaar(a) && IsAadhaar(b)
    ensures MaskAadhaar(Some(a)) == Some("XXXXXXXX" + a[8..])
    ensures MaskAadhaar(Some(a)) == MaskAadhaar(Some(b)) <==> a[8..] == b[8..]
  {
    assert DigitsOnly(a) == a;
    assert DigitsOnly(b) == b;
    if MaskAadhaar(Some(a)) == MaskAadhaar(Some(b)) {
      assert ("XXXXXXXX" + a[8..])[8..] == a[8..];
      assert ("XXXXXXXX" + b[8..])[8..] == b[8..];
    }
  }

  datatype User = User(
    id: string,
    name: string,
    aadhaar: Option<string>,
    employeeId: Option<string>,
    password: string,
    role: AccountRole,
    walletAddress: Option<string>,
    createdAt: int)

  /**
   * What the pre-validate hook and the schema guarantee of a stored account: a
   * citizen holds a 12-digit Aadhaar and no employee ID, a reviewer a non-blank
   * employee ID and no Aadhaar; the wallet is kept lower-cased and trimmed.
   */
  predicate WellFormed(u: User) {
    && !Blank(u.name) && u.password != ""
    && (u.role == Citizen ==> u.aadhaar.Some? && IsAadhaar(u.aadhaar.value) && u.employeeId == None)
    && (u.role != Citizen ==> u.employeeId.Some? && !Blank(u.employeeId.value) && u.aadhaar == None)
    && (u.walletAddress.Some? ==> u.walletAddress.value == Trim(Lower(u.walletAddress.value)))
  }

  /** The unique indexes: ids, and Aadhaar numbers, employee IDs and wallets where present. */
  predicate UsersUnique(users: seq<User>) {
    forall i, j :: 0 <= i < j < |users| ==>
      && users[i].id != users[j].id
      && (users[i].aadhaar.Some? && users[j].aadhaar.Some? ==> users[i].aadhaar != users[j].aadhaar)
      && (users[i].employeeId.Some? && users[j].employeeId.Some? ==> users[i].employeeId != users[j].employeeId)
      && (users[i].walletAddress.Some? && users[j].walletAddress.Some? ==> users[i].walletAddress != users[j].walletAddress)
  }

  /**
   * The pre-validate rule on a document's role and identifiers: a citizen needs a
   * 12-digit Aadhaar and loses any employee ID; a reviewer needs a non-blank employee
   * ID and loses any Aadhaar; any other role string passes unchanged (the enum check
   * that follows refuses it). The result is the new (aadhaar, employeeId) pair.
   */
  function PreValidateRule(role: string, aadhaar: Option<string>, employeeId: Option<string>)
    : (r: Result<(Option<string>, Option<string>), string>)
    ensures role == "citizen" ==>
      (r.Ok? <==> Truthy(aadhaar) && IsAadhaar(aadhaar.value)) && (r.Ok? ==> r.value == (aadhaar, None))
    ensures role in {"registrar", "notary", "localAuthority"} ==>
      (r.Ok? <==> Truthy(employeeId) && !Blank(employeeId.value)) && (r.Ok? ==> r.value == (None, employeeId))
    ensures role !in {"citizen", "registrar", "notary", "localAuthority"} ==> r == Ok((aadhaar, employeeId))
  {
    if role == "citizen" then
      if !Truthy(aadhaar) || !IsAadhaar(aadhaar.value) then Err("Citizen must have a valid 12-digit Aadhaar.")
      else Ok((aadhaar, None))
    else if role == "registrar" || role == "notary" || role == "localAuthority" then
      if !Truthy(employeeId) || Blank(employeeId.value) then Err("Registrar/Notary/LocalAuthority must have employeeId.")
      else Ok((None, employeeId))
    else Ok((aadhaar, employeeId))
  }

  /** The `trim` setter on an optional field. */
  function TrimField(v: Option<string>): Option<string> {
    match v
    case Some(x) => Some(Trim(x))
    case None => None
  }

  /** The `lowercase` and `trim` setters on `walletAddress`. */
  function WalletField(v: Option<string>): (r: Option<string>)
    ensures r.Some? ==> r.value == Trim(Lower(r.value))
  {
    match v
    case Some(x) => TrimLowerIdempotent(x); Some(Trim(Lower(x)))
    case None => None
  }

  /** An account document before it is saved. */
  class UserDocument {
    var name: string
    var aadhaar: Option<string>
    var employeeId: Option<string>
    var password: string
    var role: string
    var walletAddress: Option<string>

    /** What the setters leave behind: a trimmed name and a lower-cased, trimmed wallet. */
    predicate SettersApplied()
      reads this
    {
      name == Trim(name) && (walletAddress.Some? ==> walletAddress.value == Trim(Lower(walletAddress.value)))
    }

    /** `new User(data)`: every field passes through its schema setters. */
    constructor (name: string, aadhaar: Option<string>, employeeId: Option<string>, password: string,
                 role: string, walletAddress: Option<string>)
      ensures this.name == Trim(name) && this.aadhaar == TrimField(aadhaar)
      ensures this.employeeId == TrimField(employeeId)
      ensures this.password == password && this.role == role && this.walletAddress == WalletField(walletAddress)
      ensures SettersApplied()
    {
      var trimmed := Trim(name);
      var wallet := WalletField(walletAddress);
      TrimIdempotent(name);
      assert trimmed == Trim(trimmed);
      this.name := trimmed;
      this.aadhaar := TrimField(aadhaar);
      this.employeeId := TrimField(employeeId);
      this.password := password;
      this.role := role;
      this.walletAddress := wallet;
      new;
      assert this.name == Trim(this.name);
      assert this.walletAddress.Some? ==> this.walletAddress.value == Trim(Lower(this.walletAddress.value));
    }

    /**
     * The pre-validate hook: refuses a citizen without a valid Aadhaar or a reviewer
     * without an employee ID, and otherwise clears the identifier the role does not use.
     */
    method PreValidate() returns (err: Option<string>)
      modifies this
      ensures var rule := PreValidateRule(old(role), old(aadhaar), old(employeeId));
        && (rule.Err? ==> err == Some(rule.error) && aadhaar == old(aadhaar) && employeeId == old(employeeId))
        && (rule.Ok? ==> err == None && (aadhaar, employeeId) == rule.value)
      ensures name == old(name) && password == old(password) && role == old(role)
      ensures walletAddress == old(walletAddress)
    {
      if role == "citizen" {
        if !Truthy(aadhaar) || !IsAadhaar(aadhaar.value) {
          return Some("Citizen must have a valid 12-digit Aadhaar.");
        }
        employeeId := None;
      }
      if role == "registrar" || role == "notary" || role == "localAuthority" {
        if !Truthy(employeeId) || Blank(employeeId.value) {
          return Some("Registrar/Notary/LocalAuthority must have employeeId.");
        }
        aadhaar := None;
      }
      return None;
    }

    /**
     * Pre-validation followed by the schema's own checks (name and password required,
     * role in the enum); on success, the account as stored, which is well formed.
     */
    method Validate(id: string, createdAt: int) returns (r: Result<User, string>)
      requires SettersApplied()
      modifies this
      ensures r.Ok? <==>
        && PreValidateRule(old(role), old(aadhaar), old(employeeId)).Ok?
        && !Blank(name) && password != "" && ParseAccountRole(role).Some?
      ensures r.Ok? ==> WellFormed(r.value)
      ensures r.Ok? ==> r.value == User(id, name, aadhaar, employeeId, password, r.value.role, walletAddress, createdAt)
      ensures r.Ok? ==> r.value.role.Name() == role
      ensures r.Ok? ==> (aadhaar, employeeId) == PreValidateRule(old(role), old(aadhaar), old(employeeId)).value
      ensures name == old(name) && password == old(password) && role == old(role)
      ensures walletAddress == old(walletAddress)
    {
      var err := PreValidate();
      if err.Some? {
        return Err(err.value);
      }
      if Blank(name) || password == "" {
        return Err("User validation failed: name or password missing");
      }
      var parsed := ParseAccountRole(role);
      if parsed.None? {
        return Err("User validation failed: role");
      }
      r := Ok(User(id, name, aadhaar, employeeId, password, parsed.value, walletAddress, createdAt));
    }
  }
}

/**
 * Accounts over HTTP: sign-up, log-in (which migrates a legacy plain-text password to
 * a salted hash), linking a wallet to an account, and the reviewers' search of an
 * account by wallet.
 */
module AuthRoutes {
  import opened Wrappers
  import opened Text
  import opened UserSchema
  import opened Database
  import FileRoutes

  // ---------------------------------------------------------------- passwords

  /** The key derivation (PBKDF2 over SHA-512, 100000 rounds, 64 bytes) of a password and a salt. */
  type Kdf = (string, string) -> seq<Byte>

  /** `hashPassword`: "salt:key", both in hexadecimal; the salt is the hex of random bytes, supplied. */
  function HashPassword(kdf: Kdf, password: string, saltBytes: seq<Byte>): (r: string)
    ensures ':' in r && r != ""
  {
    var salt := HexLower(saltBytes);
    salt + ":" + HexLower(kdf(password, salt))
  }

  /**
   * `verifyPassword`: a stored "salt:key" is checked by deriving the key again and
   * comparing the bytes; a stored value whose first two colon-separated fields are not
   * both present is a legacy plain-text password, compared as it is.
   */
  predicate VerifyPassword(kdf: Kdf, password: string, stored: string) {
    var parts := SplitOn(stored, ':');
    var salt := parts[0];
    var originalHash := if |parts| > 1 then parts[1] else "";
    if salt == "" || originalHash == "" then stored == password
    else
      var a := BufferFromHex(originalHash);
      var b := BufferFromHex(HexLower(kdf(password, salt)));
      |a| == |b| && a == b
  }

  /** A stored value without a colon is compared as plain text. */
  lemma PlaintextFallback(kdf: Kdf, password: string, stored: string)
    requires ':' !in stored
    ensures VerifyPassword(kdf, password, stored) <==> stored == password
  {
    assert SplitOn(stored, ':') == [stored];
  }

  /**
   * A freshly hashed password is accepted for exactly the attempts whose derived key
   * under the same salt is the same: the password itself, and no other unless the key
   * derivation collides.
   */
  lemma HashedPasswordVerifies(kdf: Kdf, password: string, attempt: string, saltBytes: seq<Byte>)
    requires |saltBytes| > 0 && |kdf(password, HexLower(saltBytes))| > 0
    ensures VerifyPassword(kdf, attempt, HashPassword(kdf, password, saltBytes)) <==>
      kdf(attempt, HexLower(saltBytes)) == kdf(password, HexLower(saltBytes))
  {
    var salt := HexLower(saltBytes);
    var key := HexLower(kdf(password, salt));
    assert ':' !in salt && ':' !in key;
    assert Join([salt, key], ':') == salt + [':'] + key;
    SplitJoin([salt, key], ':');
    BufferFromHexLower(kdf(password, salt));
    BufferFromHexLower(kdf(attempt, salt));
  }

  // ---------------------------------------------------------------- responses

  /** The account as the routes return it: never the password. */
  datatype SafeUser = SafeUser(
    id: string,
    name: string,
    role: string,
    aadhaar: Option<string>,
    employeeId: Option<string>,
    walletAddress: Option<string>,
    createdAt: int)

  /** The returned account shows the Aadhaar number only of a citizen and the employee ID only of a reviewer. */
  function SafeView(u: User): (v: SafeUser)
    ensures v.id == u.id && v.role == u.role.Name()
    ensures v.aadhaar.Some? ==> u.role == Citizen && v.aadhaar == u.aadhaar
    ensures v.employeeId.Some? ==> u.role != Citizen && v.employeeId == u.employeeId
    ensures v.walletAddress.Some? <==> Truthy(u.walletAddress)
  {
    SafeUser(u.id, u.name, u.role.Name(),
             if u.role == Citizen then u.aadhaar else None,
             if u.role != Citizen then u.employeeId else None,
             OrNull(u.walletAddress), u.createdAt)
  }

  // ---------------------------------------------------------------- unique indexes

  /** Whether storing `u` beside `users` would break a unique index. */
  predicate Clashes(users: seq<User>, u: User) {
    exists j :: 0 <= j < |users| &&
      (|| users[j].id == u.id
       || (u.aadhaar.Some? && users[j].aadhaar == u.aadhaar)
       || (u.employeeId.Some? && users[j].employeeId == u.employeeId)
       || (u.walletAddress.Some? && users[j].walletAddress == u.walletAddress))
  }

  lemma AppendKeepsUnique(users: seq<User>, u: User)
    requires UsersUnique(users) && !Clashes(users, u)
    ensures UsersUnique(users + [u])
  {
  }

  /** Replacing an account by one with the same identifiers, and a wallet no other account holds, keeps the indexes. */
  lemma ReplaceKeepsUnique(users: seq<User>, i: nat, u: User)
    requires UsersUnique(users) && i < |users|
    requires u.id == users[i].id && u.aadhaar == users[i].aadhaar && u.employeeId == users[i].employeeId
    requires u.walletAddress == users[i].walletAddress ||
             forall j :: 0 <= j < |users| && j != i ==> users[j].walletAddress != u.walletAddress
    ensures UsersUnique(users[i := u])
  {
    var after := users[i := u];
    forall a, b | 0 <= a < b < |after|
      ensures after[a].id != after[b].id
      ensures after[a].aadhaar.Some? && after[b].aadhaar.Some? ==> after[a].aadhaar != after[b].aadhaar
      ensures after[a].employeeId.Some? && after[b].employeeId.Some? ==> after[a].employeeId != after[b].employeeId
      ensures after[a].walletAddress.Some? && after[b].walletAddress.Some? ==> after[a].walletAddress != after[b].walletAddress
    {
    }
  }

  // ---------------------------------------------------------------- POST /signup

  datatype SignupRequest = SignupRequest(
    name: Option<string>,
    role: Option<string>,
    aadhaar: Option<string>,
    employeeId: Option<string>,
    password: Option<string>,
    walletAddress: Option<string>)

  datatype SignupOutcome =
    | SignupFieldsRequired
    | SignupInvalidRole
    | SignupWalletRequired
    | SignupWalletInvalid
    | SignupAadhaarInvalid
    | SignupEmployeeIdRequired
    | SignupUserExists
    | SignupDuplicateKey
    | SignupFailed
    | SignedUp(user: SafeUser)
  {
    function StatusCode(): int {
      match this
      case SignupUserExists => 409
      case SignupDuplicateKey => 409
      case SignupFailed => 500
      case SignedUp(_) => 201
      case _ => 400
    }
  }

  /** The account a sign-up request describes, once its fields are checked. */
  datatype Draft = Draft(name: string, role: AccountRole, aadhaar: Option<string>, employeeId: Option<string>,
                         wallet: string, password: string)

  /** What the sign-up checks establish of the account they let through. */
  predicate DraftOk(d: Draft) {
    && d.name == Trim(d.name) && d.password != ""
    && IsAddress(d.wallet) && d.wallet == Lower(d.wallet)
    && (d.role == Citizen ==> d.aadhaar.Some? && IsAadhaar(d.aadhaar.value) && d.employeeId == None)
    && (d.role != Citizen ==>
          d.employeeId.Some? && d.employeeId.value != "" && d.employeeId.value == Trim(d.employeeId.value) && d.aadhaar == None)
  }

  /** Name, role and password are all present. */
  predicate SignupFieldsGiven(req: SignupRequest) {
    Truthy(req.name) && Truthy(req.role) && Truthy(req.password)
  }

  /** ... and the role is one of the four. */
  predicate SignupRoleKnown(req: SignupRequest) {
    SignupFieldsGiven(req) && ParseAccountRole(req.role.value).Some?
  }

  /** ... and a wallet is given that is not blank. */
  predicate SignupWalletGiven(req: SignupRequest) {
    SignupRoleKnown(req) && Truthy(req.walletAddress) && !Blank(req.walletAddress.value)
  }

  /** ... and that wallet is an address once trimmed and lower-cased. */
  predicate SignupWalletValid(req: SignupRequest) {
    SignupWalletGiven(req) && IsAddress(Lower(Trim(req.walletAddress.value)))
  }

  /**
   * The sign-up checks, in order: name, role and password present; a known role; a
   * wallet present that is an address once trimmed and lower-cased; then a 12-digit
   * Aadhaar number for a citizen or a non-blank employee ID for anyone else. Each
   * failing check gives its own 400 outcome.
   */
  function ValidateSignup(req: SignupRequest): (r: Result<Draft, SignupOutcome>)
    ensures r == Err(SignupFieldsRequired) <==> !SignupFieldsGiven(req)
    ensures r == Err(SignupInvalidRole) <==> SignupFieldsGiven(req) && !SignupRoleKnown(req)
    ensures r == Err(SignupWalletRequired) <==> SignupRoleKnown(req) && !SignupWalletGiven(req)
    ensures r == Err(SignupWalletInvalid) <==> SignupWalletGiven(req) && !SignupWalletValid(req)
    ensures r == Err(SignupAadhaarInvalid) <==>
      SignupWalletValid(req) && ParseAccountRole(req.role.value).value == Citizen && !IsAadhaar(OrEmpty(req.aadhaar))
    ensures r == Err(SignupEmployeeIdRequired) <==>
      && SignupWalletValid(req) && ParseAccountRole(req.role.value).value != Citizen
      && (!Truthy(req.employeeId) || Blank(req.employeeId.value))
    ensures r.Err? ==> r.error.StatusCode() == 400
    ensures r.Ok? <==>
      && Truthy(req.name) && Truthy(req.role) && Truthy(req.password)
      && ParseAccountRole(req.role.value).Some?
      && Truthy(req.walletAddress) && !Blank(req.walletAddress.value)
      && IsAddress(Lower(Trim(req.walletAddress.value)))
      && (if ParseAccountRole(req.role.value).value == Citizen then IsAadhaar(OrEmpty(req.aadhaar))
          else Truthy(req.employeeId) && !Blank(req.employeeId.value))
    ensures r.Ok? ==>
      && DraftOk(r.value)
      && r.value.name == Trim(req.name.value) && r.value.password == req.password.value
      && r.value.role.Name() == req.role.value
      && r.value.wallet == Lower(Trim(req.walletAddress.value))
      && (r.value.role == Citizen ==> r.value.aadhaar == req.aadhaar)
      && (r.value.role != Citizen ==> r.value.employeeId == Some(Trim(req.employeeId.value)))
  {
    if !Truthy(req.name) || !Truthy(req.role) || !Truthy(req.password) then Err(SignupFieldsRequired)
    else
      match ParseAccountRole(req.role.value)
      case None => Err(SignupInvalidRole)
      case Some(role) =>
        if !Truthy(req.walletAddress) || Blank(req.walletAddress.value) then Err(SignupWalletRequired)
        else
          var wallet := Lower(Trim(req.walletAddress.value));
          LowerIdempotent(Trim(req.walletAddress.value));
          TrimIdempotent(req.name.value);
          if !IsAddress(wallet) then Err(SignupWalletInvalid)
          else if role == Citizen then
            if !IsAadhaar(OrEmpty(req.aadhaar)) then Err(SignupAadhaarInvalid)
            else
              AadhaarIsTrimmed(req.aadhaar.value);
              Ok(Draft(Trim(req.name.value), role, Some(Trim(req.aadhaar.value)), None, wallet, req.password.value))
          else if !Truthy(req.employeeId) || Blank(req.employeeId.value) then Err(SignupEmployeeIdRequired)
          else
            TrimIdempotent(req.employeeId.value);
            Ok(Draft(Trim(req.name.value), role, None, Some(Trim(req.employeeId.value)), wallet, req.password.value))
  }

  /** `new User(userData)`: the schema's setters change nothing in a checked draft. */
  function Account(d: Draft, kdf: Kdf, saltBytes: seq<Byte>, id: string, now: int): (u: User)
    requires DraftOk(d)
    ensures u == User(id, d.name, d.aadhaar, d.employeeId, HashPassword(kdf, d.password, saltBytes), d.role, Some(d.wallet), now)
    ensures WellFormed(u) <==> d.name != ""
  {
    DraftPassesSchema(d);
    User(id, Trim(d.name), TrimField(d.aadhaar), TrimField(d.employeeId), HashPassword(kdf, d.password, saltBytes),
         d.role, WalletField(Some(d.wallet)), now)
  }

  /** The schema's setters and pre-validate hook leave a checked draft's fields as they are. */
  lemma DraftPassesSchema(d: Draft)
    requires DraftOk(d)
    ensures Trim(d.name) == d.name && TrimField(d.aadhaar) == d.aadhaar && TrimField(d.employeeId) == d.employeeId
    ensures WalletField(Some(d.wallet)) == Some(d.wallet)
    ensures ParseAccountRole(d.role.Name()) == Some(d.role)
    ensures PreValidateRule(d.role.Name(), d.aadhaar, d.employeeId) == Ok((d.aadhaar, d.employeeId))
  {
    AddressIsTrimmed(d.wallet);
    if d.aadhaar.Some? {
      AadhaarIsTrimmed(d.aadhaar.value);
    }
    ParseAccountRoleRoundTrip(d.role);
  }

  /** `User.findOne` on the identifier the role signs up with. */
  predicate IdentifierTaken(users: seq<User>, d: Draft) {
    exists j :: 0 <= j < |users| &&
      (if d.role == Citizen then users[j].aadhaar == d.aadhaar else users[j].employeeId == d.employeeId)
  }

  datatype SignupResult = SignupResult(outcome: SignupOutcome, users: seq<User>)

  /**
   * The store side of a sign-up: a taken identifier is refused with 409; a name that
   * is blank once trimmed fails validation; a wallet (or any other key) already held
   * breaks the unique index, again 409; otherwise the account is added at the end.
   */
  function CommitSignup(users: seq<User>, d: Draft, kdf: Kdf, saltBytes: seq<Byte>, id: string, now: int): (r: SignupResult)
    requires DraftOk(d)
    ensures r.outcome == SignupUserExists <==> IdentifierTaken(users, d)
    ensures r.outcome == SignupFailed <==> !IdentifierTaken(users, d) && d.name == ""
    ensures r.outcome == SignupDuplicateKey <==>
      !IdentifierTaken(users, d) && d.name != "" && Clashes(users, Account(d, kdf, saltBytes, id, now))
    ensures r.outcome.SignedUp? <==>
      !IdentifierTaken(users, d) && d.name != "" && !Clashes(users, Account(d, kdf, saltBytes, id, now))
    ensures r.outcome.SignedUp? ==> r.outcome.user == SafeView(Account(d, kdf, saltBytes, id, now))
    ensures r.outcome.SignedUp? ==> r.users == users + [Account(d, kdf, saltBytes, id, now)]
    ensures !r.outcome.SignedUp? ==> r.users == users
  {
    if IdentifierTaken(users, d) then SignupResult(SignupUserExists, users)
    else
      var u := Account(d, kdf, saltBytes, id, now);
      if Blank(u.name) then SignupResult(SignupFailed, users)
      else if Clashes(users, u) then SignupResult(SignupDuplicateKey, users)
      else SignupResult(SignedUp(SafeView(u)), users + [u])
  }

  /** POST /api/auth/signup */
  function SignupSpec(users: seq<User>, req: SignupRequest, kdf: Kdf, saltBytes: seq<Byte>, id: string, now: int)
    : SignupResult
  {
    match ValidateSignup(req)
    case Err(e) => SignupResult(e, users)
    case Ok(d) => CommitSignup(users, d, kdf, saltBytes, id, now)
  }

  /** POST /api/auth/signup */
  method Signup(db: Db, req: SignupRequest, kdf: Kdf, saltBytes: seq<Byte>, id: string, now: int)
    returns (outcome: SignupOutcome)
    requires db.Valid()
    modifies db
    ensures SignupResult(outcome, db.users) == SignupSpec(old(db.users), req, kdf, saltBytes, id, now)
    ensures db.files == old(db.files) && db.codes == old(db.codes)
    ensures db.Valid()
  {
    var checked := ValidateSignup(req);
    if checked.Err? {
      return checked.error;
    }
    outcome := SaveAccount(db, checked.value, kdf, saltBytes, id, now);
  }

  /** The store side of POST /api/auth/signup, for a checked draft. */
  method SaveAccount(db: Db, d: Draft, kdf: Kdf, saltBytes: seq<Byte>, id: string, now: int)
    returns (outcome: SignupOutcome)
    requires db.Valid() && DraftOk(d)
    modifies db
    ensures SignupResult(outcome, db.users) == CommitSignup(old(db.users), d, kdf, saltBytes, id, now)
    ensures db.files == old(db.files) && db.codes == old(db.codes)
    ensures db.Valid()
  {
    if IdentifierTaken(db.users, d) {
      return SignupUserExists;
    }
    DraftPassesSchema(d);
    var doc := new UserDocument(d.name, d.aadhaar, d.employeeId, HashPassword(kdf, d.password, saltBytes),
                                d.role.Name(), Some(d.wallet));
    ghost var account := Account(d, kdf, saltBytes, id, now);
    var saved := doc.Validate(id, now);
    if saved.Err? {
      return SignupFailed;
    }
    ParseAccountRoleRoundTrip(saved.value.role);
    assert saved.value == account;
    if Clashes(db.users, saved.value) {
      return SignupDuplicateKey;
    }
    AppendKeepsUnique(db.users, saved.value);
    db.users := db.users + [saved.value];
    outcome := SignedUp(SafeView(saved.value));
  }

  // ---------------------------------------------------------------- POST /login

  datatype LoginRequest = LoginRequest(role: Option<string>, aadhaar: Option<string>, employeeId: Option<string>,
                                       password: Option<string>)

  datatype LoginOutcome =
    | LoginFieldsRequired
    | LoginInvalidRole
    | LoginAadhaarRequired
    | LoginEmployeeIdRequired
    | InvalidCredentials
    | LoggedIn(user: SafeUser)
  {
    function StatusCode(): int {
      match this
      case InvalidCredentials => 401
      case LoggedIn(_) => 200
      case _ => 400
    }
  }

  /**
   * The log-in checks, in order: role and password present, a known role, then a
   * 12-digit Aadhaar number for a citizen or a non-blank employee ID for anyone else.
   * Each failing check gives its own 400 outcome; the result is the role and the
   * identifier to look the account up by.
   */
  function LoginQuery(req: LoginRequest): (r: Result<(AccountRole, string), LoginOutcome>)
    ensures r.Ok? <==>
      && Truthy(req.role) && Truthy(req.password) && ParseAccountRole(req.role.value).Some?
      && (if ParseAccountRole(req.role.value).value == Citizen then Truthy(req.aadhaar) && IsAadhaar(req.aadhaar.value)
          else Truthy(req.employeeId) && !Blank(req.employeeId.value))
    ensures r == Err(LoginFieldsRequired) <==> !Truthy(req.role) || !Truthy(req.password)
    ensures r == Err(LoginInvalidRole) <==>
      Truthy(req.role) && Truthy(req.password) && ParseAccountRole(req.role.value).None?
    ensures r == Err(LoginAadhaarRequired) <==>
      && Truthy(req.role) && Truthy(req.password) && ParseAccountRole(req.role.value) == Some(Citizen)
      && (!Truthy(req.aadhaar) || !IsAadhaar(req.aadhaar.value))
    ensures r == Err(LoginEmployeeIdRequired) <==>
      && Truthy(req.role) && Truthy(req.password) && ParseAccountRole(req.role.value).Some?
      && ParseAccountRole(req.role.value) != Some(Citizen)
      && (!Truthy(req.employeeId) || Blank(req.employeeId.value))
    ensures r.Err? ==> r.error.StatusCode() == 400
    ensures r.Ok? ==> r.value.0.Name() == req.role.value
    ensures r.Ok? && r.value.0 == Citizen ==> Some(r.value.1) == req.aadhaar
    ensures r.Ok? && r.value.0 != Citizen ==> r.value.1 == Trim(req.employeeId.value)
  {
    if !Truthy(req.role) || !Truthy(req.password) then Err(LoginFieldsRequired)
    else
      match ParseAccountRole(req.role.value)
      case None => Err(LoginInvalidRole)
      case Some(role) =>
        if role == Citizen then
          if !Truthy(req.aadhaar) || !IsAadhaar(req.aadhaar.value) then Err(LoginAadhaarRequired)
          else
            AadhaarIsTrimmed(req.aadhaar.value);
            Ok((Citizen, Trim(req.aadhaar.value)))
        else if !Truthy(req.employeeId) || Blank(req.employeeId.value) then Err(LoginEmployeeIdRequired)
        else Ok((role, Trim(req.employeeId.value)))
  }

  /** The account query of a log-in: the role, and the Aadhaar number or the employee ID. */
  predicate SignsInWith(u: User, role: AccountRole, key: string) {
    u.role == role && (if role == Citizen then u.aadhaar == Some(key) else u.employeeId == Some(key))
  }

  /** `User.findOne(query)`: the first account the query matches. */
  function FindAccount(users: seq<User>, role: AccountRole, key: string): (r: Option<nat>)
    ensures r.Some? ==> r.value < |users| && SignsInWith(users[r.value], role, key)
    ensures r.Some? ==> forall j :: 0 <= j < r.value ==> !SignsInWith(users[j], role, key)
    ensures r.None? ==> forall j :: 0 <= j < |users| ==> !SignsInWith(users[j], role, key)
  {
    if |users| == 0 then None
    else if SignsInWith(users[0], role, key) then Some(0)
    else
      match FindAccount(users[1..], role, key)
      case None => None
      case Some(i) => Some(i + 1)
  }

  datatype LoginResult = LoginResult(outcome: LoginOutcome, users: seq<User>)

  /**
   * POST /api/auth/login: an unknown account and a wrong password give the same 401;
   * a successful log-in against a legacy plain-text password stores it hashed.
   */
  function LoginSpec(users: seq<User>, req: LoginRequest, kdf: Kdf, saltBytes: seq<Byte>): LoginResult {
    match LoginQuery(req)
    case Err(e) => LoginResult(e, users)
    case Ok(q) =>
      match FindAccount(users, q.0, q.1)
      case None => LoginResult(InvalidCredentials, users)
      case Some(i) =>
        var u := users[i];
        if !VerifyPassword(kdf, req.password.value, u.password) then LoginResult(InvalidCredentials, users)
        else if ':' in u.password then LoginResult(LoggedIn(SafeView(u)), users)
        else
          var migrated := u.(password := HashPassword(kdf, req.password.value, saltBytes));
          LoginResult(LoggedIn(SafeView(migrated)), users[i := migrated])
  }

  /** POST /api/auth/login */
  method Login(db: Db, req: LoginRequest, kdf: Kdf, saltBytes: seq<Byte>) returns (outcome: LoginOutcome)
    requires db.Valid()
    modifies db
    ensures LoginResult(outcome, db.users) == LoginSpec(old(db.users), req, kdf, saltBytes)
    ensures db.files == old(db.files) && db.codes == old(db.codes)
    ensures db.Valid()
  {
    var query := LoginQuery(req);
    if query.Err? {
      return query.error;
    }
    var found := FindAccount(db.users, query.value.0, query.value.1);
    if found.None? {
      return InvalidCredentials;
    }
    var user := db.users[found.value];
    var password := req.password.value;
    if !VerifyPassword(kdf, password, user.password) {
      return InvalidCredentials;
    }
    if ':' !in user.password {
      user := user.(password := HashPassword(kdf, password, saltBytes));
      ReplaceKeepsUnique(db.users, found.value, user);
      db.users := db.users[found.value := user];
    }
    outcome := LoggedIn(SafeView(user));
  }

  /** The two credential failures are indistinguishable: both are the same 401. */
  lemma LoginCredentialFailuresAlike(users: seq<User>, req: LoginRequest, kdf: Kdf, saltBytes: seq<Byte>)
    ensures var q := LoginQuery(req);
      LoginSpec(users, req, kdf, saltBytes).outcome == InvalidCredentials <==>
        && q.Ok?
        && (|| FindAccount(users, q.value.0, q.value.1).None?
            || !VerifyPassword(kdf, req.password.value, users[FindAccount(users, q.value.0, q.value.1).value].password))
  {
  }

  /**
   * A log-in touches at most the password of the account it found: a legacy plain-text
   * one is replaced by its hash, which the same password then passes.
   */
  lemma LoginMigratesPlaintext(users: seq<User>, req: LoginRequest, kdf: Kdf, saltBytes: seq<Byte>)
    requires LoginSpec(users, req, kdf, saltBytes).outcome.LoggedIn?
    requires |saltBytes| > 0 && |kdf(req.password.value, HexLower(saltBytes))| > 0
    ensures var q := LoginQuery(req).value;
      var i := FindAccount(users, q.0, q.1).value;
      var after := LoginSpec(users, req, kdf, saltBytes).users;
      && |after| == |users|
      && (forall j :: 0 <= j < |users| && j != i ==> after[j] == users[j])
      && after[i] == users[i].(password := after[i].password)
      && (':' in users[i].password ==> after == users)
      && (':' !in users[i].password ==>
            after[i].password == HashPassword(kdf, req.password.value, saltBytes)
            && VerifyPassword(kdf, req.password.value, after[i].password))
  {
    var q := LoginQuery(req).value;
    var i := FindAccount(users, q.0, q.1).value;
    if ':' !in users[i].password {
      HashedPasswordVerifies(kdf, req.password.value, req.password.value, saltBytes);
    }
  }

  /** A log-in whose query finds an account holding a hashed password that the given one passes succeeds. */
  lemma LoginSucceeds(users: seq<User>, req: LoginRequest, kdf: Kdf, saltBytes: seq<Byte>, role: AccountRole, key: string, i: nat)
    requires LoginQuery(req) == Ok((role, key)) && FindAccount(users, role, key) == Some(i)
    requires VerifyPassword(kdf, req.password.value, users[i].password) && ':' in users[i].password
    ensures LoginSpec(users, req, kdf, saltBytes) == LoginResult(LoggedIn(SafeView(users[i])), users)
  {
  }

  /**
   * An account just signed up can log in with the same role, identifier and password:
   * its identifier was free, so the log-in query finds exactly that account.
   */
  /** The identifier a checked draft signs in with. */
  function DraftKey(d: Draft): string
    requires DraftOk(d)
  {
    if d.role == Citizen then d.aadhaar.value else d.employeeId.value
  }

  /** Logging in with the fields a sign-up accepted runs the query for the drafted account. */
  lemma SignupFieldsLogIn(req: SignupRequest)
    requires ValidateSignup(req).Ok?
    ensures LoginQuery(LoginRequest(req.role, req.aadhaar, req.employeeId, req.password))
      == Ok((ValidateSignup(req).value.role, DraftKey(ValidateSignup(req).value)))
  {
    ParseAccountRoleRoundTrip(ValidateSignup(req).value.role);
  }

  /** An account added with an identifier no one held is the first the log-in query finds. */
  lemma FreshAccountFound(users: seq<User>, d: Draft, u: User)
    requires DraftOk(d) && !IdentifierTaken(users, d)
    requires u.role == d.role && u.aadhaar == d.aadhaar && u.employeeId == d.employeeId
    ensures FindAccount(users + [u], d.role, DraftKey(d)) == Some(|users|)
  {
    var after := users + [u];
    assert SignsInWith(after[|users|], d.role, DraftKey(d));
    forall j | 0 <= j < |users|
      ensures !SignsInWith(after[j], d.role, DraftKey(d))
    {
      assert after[j] == users[j];
    }
  }

  /**
   * An account just signed up can log in with the same role, identifier and password:
   * its identifier was free, so the log-in query finds exactly that account.
   */
  lemma SignupThenLogin(users: seq<User>, req: SignupRequest, kdf: Kdf, saltBytes: seq<Byte>, id: string, now: int,
                        later: seq<Byte>)
    requires SignupSpec(users, req, kdf, saltBytes, id, now).outcome.SignedUp?
    requires |saltBytes| > 0 && |kdf(req.password.value, HexLower(saltBytes))| > 0
    ensures var after := SignupSpec(users, req, kdf, saltBytes, id, now).users;
      LoginSpec(after, LoginRequest(req.role, req.aadhaar, req.employeeId, req.password), kdf, later).outcome
        == LoggedIn(SafeView(after[|users|]))
  {
    var d := ValidateSignup(req).value;
    var u := Account(d, kdf, saltBytes, id, now);
    assert SignupSpec(users, req, kdf, saltBytes, id, now) == CommitSignup(users, d, kdf, saltBytes, id, now);
    assert !IdentifierTaken(users, d);
    var after := users + [u];
    assert after[|users|] == u;
    SignupFieldsLogIn(req);
    FreshAccountFound(users, d, u);
    HashedPasswordVerifies(kdf, d.password, d.password, saltBytes);
    LoginSucceeds(after, LoginRequest(req.role, req.aadhaar, req.employeeId, req.password), kdf, later,
                  d.role, DraftKey(d), |users|);
  }

  // ---------------------------------------------------------------- PATCH /save-wallet

  datatype SaveWalletRequest = SaveWalletRequest(userId: Option<string>, walletAddress: Option<string>)

  datatype SaveWalletOutcome =
    | SaveUserIdRequired
    | SaveWalletRequired
    | SaveWalletInvalid
    | SaveUserNotFound
    | WalletTaken
    | WalletSaved(user: SafeUser)
  {
    function StatusCode(): int {
      match this
      case SaveUserNotFound => 404
      case WalletTaken => 409
      case WalletSaved(_) => 200
      case _ => 400
    }
  }

  /** `User.findById(id)` */
  function FindUserById(users: seq<User>, id: string): (r: Option<nat>)
    ensures r.Some? ==> r.value < |users| && users[r.value].id == id
    ensures r.None? ==> forall j :: 0 <= j < |users| ==> users[j].id != id
  {
    if |users| == 0 then None
    else if users[0].id == id then Some(0)
    else
      match FindUserById(users[1..], id)
      case None => None
      case Some(i) => Some(i + 1)
  }

  /** Whether an account other than the `i`-th is linked to the wallet. */
  predicate WalletHeldByOther(users: seq<User>, i: nat, wallet: string) {
    exists j :: 0 <= j < |users| && j != i && users[j].walletAddress == Some(wallet)
  }

  datatype SaveWalletResult = SaveWalletResult(outcome: SaveWalletOutcome, users: seq<User>)

  /**
   * PATCH /api/auth/save-wallet: the account id and the wallet are required; the
   * wallet, trimmed and lower-cased, must be an address; an unknown account is 404,
   * and a wallet linked to another account breaks the unique index (409).
   */
  function SaveWalletSpec(users: seq<User>, req: SaveWalletRequest): SaveWalletResult {
    if !Truthy(req.userId) || Blank(req.userId.value) then SaveWalletResult(SaveUserIdRequired, users)
    else if !Truthy(req.walletAddress) || Blank(req.walletAddress.value) then SaveWalletResult(SaveWalletRequired, users)
    else
      var wallet := Lower(Trim(req.walletAddress.value));
      if !IsAddress(wallet) then SaveWalletResult(SaveWalletInvalid, users)
      else
        match FindUserById(users, Trim(req.userId.value))
        case None => SaveWalletResult(SaveUserNotFound, users)
        case Some(i) =>
          if WalletHeldByOther(users, i, wallet) then SaveWalletResult(WalletTaken, users)
          else
            var linked := users[i].(walletAddress := Some(wallet));
            SaveWalletResult(WalletSaved(SafeView(linked)), users[i := linked])
  }

  /** PATCH /api/auth/save-wallet */
  method SaveWallet(db: Db, req: SaveWalletRequest) returns (outcome: SaveWalletOutcome)
    requires db.Valid()
    modifies db
    ensures SaveWalletResult(outcome, db.users) == SaveWalletSpec(old(db.users), req)
    ensures db.files == old(db.files) && db.codes == old(db.codes)
    ensures db.Valid()
  {
    if !Truthy(req.userId) || Blank(req.userId.value) {
      return SaveUserIdRequired;
    }
    if !Truthy(req.walletAddress) || Blank(req.walletAddress.value) {
      return SaveWalletRequired;
    }
    var wallet := Lower(Trim(req.walletAddress.value));
    if !IsAddress(wallet) {
      return SaveWalletInvalid;
    }
    var found := FindUserById(db.users, Trim(req.userId.value));
    if found.None? {
      return SaveUserNotFound;
    }
    if WalletHeldByOther(db.users, found.value, wallet) {
      return WalletTaken;
    }
    var linked := db.users[found.value].(walletAddress := Some(wallet));
    ReplaceKeepsUnique(db.users, found.value, linked);
    db.users := db.users[found.value := linked];
    outcome := WalletSaved(SafeView(linked));
  }

  /**
   * Each save-wallet refusal, by its condition in order: no account id (400), no
   * wallet (400), a wallet that is not an address once trimmed and lower-cased (400),
   * no account with the trimmed id (404), the wallet linked to another account (409).
   * No refusal changes any account; the one success links the wallet to the found
   * account alone.
   */
  lemma SaveWalletRefusals(users: seq<User>, req: SaveWalletRequest)
    ensures var r := SaveWalletSpec(users, req);
      var idGiven := Truthy(req.userId) && !Blank(req.userId.value);
      var walletGiven := Truthy(req.walletAddress) && !Blank(req.walletAddress.value);
      var wallet := if walletGiven then Lower(Trim(req.walletAddress.value)) else "";
      var found := if idGiven then FindUserById(users, Trim(req.userId.value)) else None;
      && (r.outcome == SaveUserIdRequired <==> !idGiven)
      && (r.outcome == SaveWalletRequired <==> idGiven && !walletGiven)
      && (r.outcome == SaveWalletInvalid <==> idGiven && walletGiven && !IsAddress(wallet))
      && (r.outcome == SaveUserNotFound <==>
            idGiven && walletGiven && IsAddress(wallet) && forall j :: 0 <= j < |users| ==> users[j].id != Trim(req.userId.value))
      && (r.outcome == WalletTaken <==>
            idGiven && walletGiven && IsAddress(wallet) && found.Some? && WalletHeldByOther(users, found.value, wallet))
      && (!r.outcome.WalletSaved? ==> r.users == users)
      && (r.outcome.WalletSaved? ==>
            && found.Some? && r.users == users[found.value := users[found.value].(walletAddress := Some(wallet))]
            && r.outcome.StatusCode() == 200)
  {
  }

  /**
   * A sign-up is refused with its validation error, then with 409 when the identifier
   * is taken, with 500 for a name that trims to nothing, with 409 when another unique
   * key is held; only a sign-up that passes them all adds an account.
   */
  lemma SignupRefusals(users: seq<User>, req: SignupRequest, kdf: Kdf, saltBytes: seq<Byte>, id: string, now: int)
    ensures var r := SignupSpec(users, req, kdf, saltBytes, id, now);
      var v := ValidateSignup(req);
      && (v.Err? ==> r == SignupResult(v.error, users))
      && (v.Ok? ==>
            && (r.outcome == SignupUserExists <==> IdentifierTaken(users, v.value))
            && (r.outcome == SignupFailed <==> !IdentifierTaken(users, v.value) && Trim(req.name.value) == "")
            && (r.outcome.SignedUp? ==> |r.users| == |users| + 1 && r.users[..|users|] == users))
      && (r.outcome.StatusCode() == 409 <==> r.outcome in {SignupUserExists, SignupDuplicateKey})
      && (!r.outcome.SignedUp? ==> r.users == users)
  {
    var v := ValidateSignup(req);
    if v.Ok? {
      var r := CommitSignup(users, v.value, kdf, saltBytes, id, now);
      if r.outcome.SignedUp? {
        assert r.users[..|users|] == users;
      }
    }
  }

  // ---------------------------------------------------------------- GET /user-by-wallet/:walletAddress

  /** The account as the reviewers' search shows it, with the Aadhaar number masked. */
  datatype UserCard = UserCard(
    id: string,
    name: string,
    role: string,
    aadhaar: Option<string>,
    employeeId: Option<string>,
    walletAddress: Option<string>,
    createdAt: int)

  datatype UserByWalletOutcome =
    | UserSearchForbidden
    | UserSearchWalletInvalid
    | UserSearchNotFound
    | UserFound(user: UserCard)
  {
    function StatusCode(): int {
      match this
      case UserSearchForbidden => 403
      case UserSearchWalletInvalid => 400
      case UserSearchNotFound => 404
      case UserFound(_) => 200
    }
  }

  /** GET /api/auth/user-by-wallet/:walletAddress, for reviewers only; it never writes. */
  function UserByWalletSpec(role: Option<string>, rawWallet: string, users: seq<User>): UserByWalletOutcome {
    if !FileRoutes.IsReviewerQuery(role) then UserSearchForbidden
    else
      var wallet := Lower(Trim(rawWallet));
      if !IsAddress(wallet) then UserSearchWalletInvalid
      else
        match FindUserByWallet(users, wallet)
        case None => UserSearchNotFound
        case Some(i) =>
          var u := users[i];
          UserFound(UserCard(u.id, u.name, u.role.Name(), MaskAadhaar(u.aadhaar), OrNull(u.employeeId),
                             OrNull(u.walletAddress), u.createdAt))
  }

  /**
   * The search answers reviewers only, refuses a wallet that is not an address, and
   * shows the account linked to that wallet with at most the last four digits of its
   * Aadhaar number.
   */
  lemma UserByWalletShowsMaskedAccount(role: Option<string>, rawWallet: string, users: seq<User>)
    ensures var r := UserByWalletSpec(role, rawWallet, users);
      && (r == UserSearchForbidden <==> !FileRoutes.IsReviewerQuery(role))
      && (r == UserSearchWalletInvalid <==> FileRoutes.IsReviewerQuery(role) && !IsAddress(Lower(Trim(rawWallet))))
      && (r.UserFound? ==>
            && FindUserByWallet(users, Lower(Trim(rawWallet))).Some?
            && r.user.id == users[FindUserByWallet(users, Lower(Trim(rawWallet))).value].id
            && r.user.walletAddress == Some(Lower(Trim(rawWallet)))
            && (r.user.aadhaar.Some? ==> forall k :: 0 <= k < 8 ==> r.user.aadhaar.value[k] == 'X'))
  {
  }

  /**
   * Linking a wallet and then searching for it (in any case, with any surrounding
   * space) finds the account it was linked to; the stored wallet is in the form the
   * schema keeps, and the indexes stay unique.
   */
  lemma SavedWalletIsFound(users: seq<User>, req: SaveWalletRequest, role: Option<string>)
    requires UsersUnique(users)
    requires SaveWalletSpec(users, req).outcome.WalletSaved?
    requires FileRoutes.IsReviewerQuery(role)
    ensures var after := SaveWalletSpec(users, req).users;
      var wallet := Lower(Trim(req.walletAddress.value));
      && UsersUnique(after)
      && (WellFormed(users[FindUserById(users, Trim(req.userId.value)).value]) ==>
            WellFormed(after[FindUserById(users, Trim(req.userId.value)).value]))
      && UserByWalletSpec(role, req.walletAddress.value, after).UserFound?
      && UserByWalletSpec(role, req.walletAddress.value, after).user.id == Trim(req.userId.value)
  {
    var i := FindUserById(users, Trim(req.userId.value)).value;
    var wallet := Lower(Trim(req.walletAddress.value));
    var after := users[i := users[i].(walletAddress := Some(wallet))];
    ReplaceKeepsUnique(users, i, after[i]);
    LowerIdempotent(Trim(req.walletAddress.value));
    assert Trim(wallet) == wallet;
    assert FindUserByWallet(after, wallet) == Some(i);
  }
}

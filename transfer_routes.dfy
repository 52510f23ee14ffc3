/**
 * The transfer-code routes: issuing a one-time code bound to the buyer's wallet
 * (with a bounded retry on code collisions), resolving a code to its wallet and the
 * account linked to it, and the seller-side check that the ledger lists the wallet as
 * the owner of a registered property.
 */
module TransferRoutes {
  import opened Wrappers
  import opened Text
  import opened Ledger
  import opened TransferCodes
  import opened UserSchema
  import opened Database
  import OwnerTransfer

  // ---------------------------------------------------------------- codes

  /** How long a code stays valid: ten minutes, in milliseconds. */
  const CodeLifetime: int := 10 * 60 * 1000

  /** How many codes the issuing route draws before giving up. */
  const MaxAttempts: nat := 5

  /** `createTransferCode`: four random bytes in hexadecimal, upper case. */
  function CreateTransferCode(bytes: seq<Byte>): (r: string)
    requires |bytes| == 4
    ensures |r| == 8
    ensures forall k :: 0 <= k < |r| ==> IsUpperHexDigit(r[k])
  {
    Upper(HexLower(bytes))
  }

  /** Distinct draws give distinct codes: the code determines the four bytes. */
  lemma CreateTransferCodeInjective(a: seq<Byte>, b: seq<Byte>)
    requires |a| == 4 && |b| == 4
    ensures CreateTransferCode(a) == CreateTransferCode(b) <==> a == b
  {
    HexUpperRoundTrip(a);
    HexUpperRoundTrip(b);
  }

  /** A drawn code is already in the form the store normalises codes to. */
  lemma CreatedCodeIsNormal(bytes: seq<Byte>)
    requires |bytes| == 4
    ensures NormalizeCode(CreateTransferCode(bytes)) == CreateTransferCode(bytes)
  {
    var c := CreateTransferCode(bytes);
    assert Upper(c) == c;
  }

  datatype GenerateOutcome =
    | WalletRequired
    | WalletInvalid
    | CodeCreated(code: TransferCode)
    | GenerateExhausted
    | GenerateFailed
  {
    function StatusCode(): int {
      match this
      case WalletRequired | WalletInvalid => 400
      case CodeCreated(_) => 201
      case _ => 500
    }
  }

  datatype GenerateResult = GenerateResult(outcome: GenerateOutcome, codes: map<string, TransferCode>)

  /** Each attempt draws four bytes; `faults[k]` says the store failed attempt `k` for a reason other than a duplicate. */
  predicate WellDrawn(draws: seq<seq<Byte>>, faults: seq<bool>) {
    |faults| == |draws| && forall k :: 0 <= k < |draws| ==> |draws[k]| == 4
  }

  /**
   * The attempts left: a document the store refuses to validate, or any failure other
   * than a duplicate code, ends the route with 500; a duplicate code moves on to the
   * next draw; the first code not yet stored is inserted.
   */
  function Attempts(codes: map<string, TransferCode>, wallet: string, expiresAt: int,
                    draws: seq<seq<Byte>>, faults: seq<bool>, now: int): (r: GenerateResult)
    requires WellDrawn(draws, faults)
    ensures r.outcome.CodeCreated? || r.outcome == GenerateExhausted || r.outcome == GenerateFailed
    ensures !r.outcome.CodeCreated? ==> r.codes == codes
    decreases |draws|
  {
    if |draws| == 0 then GenerateResult(GenerateExhausted, codes)
    else
      match NewTransferCode(CreateTransferCode(draws[0]), wallet, expiresAt, now)
      case None => GenerateResult(GenerateFailed, codes)
      case Some(c) =>
        if faults[0] then GenerateResult(GenerateFailed, codes)
        else if c.code in codes then Attempts(codes, wallet, expiresAt, draws[1..], faults[1..], now)
        else GenerateResult(CodeCreated(c), codes[c.code := c])
  }

  /** The wallet the issuing route binds a code to: trimmed, lower case. */
  function RequestedWallet(raw: Option<string>): string {
    Lower(Trim(OrEmpty(raw)))
  }

  /** The response of POST /api/transfer/generate-code and the codes stored afterwards. */
  function GenerateSpec(codes: map<string, TransferCode>, raw: Option<string>,
                        draws: seq<seq<Byte>>, faults: seq<bool>, now: int): GenerateResult
    requires WellDrawn(draws, faults) && |draws| == MaxAttempts
  {
    var wallet := RequestedWallet(raw);
    if wallet == "" then GenerateResult(WalletRequired, codes)
    else if !IsAddress(wallet) then GenerateResult(WalletInvalid, codes)
    else Attempts(codes, wallet, now + CodeLifetime, draws, faults, now)
  }

  /** The attempts loop: draw, insert, retry on a duplicate code only. */
  method InsertFirstFree(db: Db, wallet: string, expiresAt: int, draws: seq<seq<Byte>>, faults: seq<bool>, now: int)
    returns (outcome: GenerateOutcome)
    requires WellDrawn(draws, faults) && |draws| == MaxAttempts
    requires db.Valid()
    modifies db
    ensures GenerateResult(outcome, db.codes) == Attempts(old(db.codes), wallet, expiresAt, draws, faults, now)
    ensures db.files == old(db.files) && db.users == old(db.users)
    ensures db.Valid()
  {
    ghost var whole := Attempts(db.codes, wallet, expiresAt, draws, faults, now);
    var attempts := 0;
    while attempts < MaxAttempts
      invariant 0 <= attempts <= MaxAttempts
      invariant unchanged(db)
      invariant Attempts(db.codes, wallet, expiresAt, draws[attempts..], faults[attempts..], now) == whole
    {
      assert draws[attempts..][0] == draws[attempts] && faults[attempts..][0] == faults[attempts];
      assert draws[attempts..][1..] == draws[attempts + 1..] && faults[attempts..][1..] == faults[attempts + 1..];
      var doc := NewTransferCode(CreateTransferCode(draws[attempts]), wallet, expiresAt, now);
      if doc.None? || faults[attempts] {
        return GenerateFailed;
      }
      if doc.value.code !in db.codes {
        db.codes := db.codes[doc.value.code := doc.value];
        return CodeCreated(doc.value);
      }
      attempts := attempts + 1;
    }
    outcome := GenerateExhausted;
  }

  /** POST /api/transfer/generate-code */
  method GenerateCode(db: Db, raw: Option<string>, draws: seq<seq<Byte>>, faults: seq<bool>, now: int)
    returns (outcome: GenerateOutcome)
    requires WellDrawn(draws, faults) && |draws| == MaxAttempts
    requires db.Valid()
    modifies db
    ensures GenerateResult(outcome, db.codes) == GenerateSpec(old(db.codes), raw, draws, faults, now)
    ensures db.files == old(db.files) && db.users == old(db.users)
    ensures db.Valid()
  {
    var walletAddress := RequestedWallet(raw);
    if walletAddress == "" {
      return WalletRequired;
    }
    if !IsAddress(walletAddress) {
      return WalletInvalid;
    }
    var expiresAt := now + CodeLifetime;
    outcome := InsertFirstFree(db, walletAddress, expiresAt, draws, faults, now);
  }

  /** For a normalised wallet, every draw validates and gives an unused code with both times `now`. */
  lemma DrawnDocument(bytes: seq<Byte>, wallet: string, expiresAt: int, now: int)
    requires |bytes| == 4 && NormalizeWallet(wallet) == wallet && wallet != ""
    ensures NewTransferCode(CreateTransferCode(bytes), wallet, expiresAt, now)
      == Some(TransferCode(CreateTransferCode(bytes), wallet, expiresAt, false, now, now))
  {
    CreatedCodeIsNormal(bytes);
  }

  /**
   * A code the attempts create was not stored before, is an 8-character upper-case code
   * bound to the wallet, unused, stamped `now`, and is the only change to the store.
   */
  lemma {:induction false} AttemptsCreateFreshCode(codes: map<string, TransferCode>, wallet: string, expiresAt: int,
                                                   draws: seq<seq<Byte>>, faults: seq<bool>, now: int)
    requires WellDrawn(draws, faults) && NormalizeWallet(wallet) == wallet && wallet != ""
    ensures var r := Attempts(codes, wallet, expiresAt, draws, faults, now);
      && (r.outcome.CodeCreated? ==>
            && r.outcome.code == TransferCode(r.outcome.code.code, wallet, expiresAt, false, now, now)
            && r.outcome.code.code !in codes
            && r.codes == codes[r.outcome.code.code := r.outcome.code]
            && |r.outcome.code.code| == 8
            && (forall k :: 0 <= k < 8 ==> IsUpperHexDigit(r.outcome.code.code[k])))
  {
    if |draws| > 0 {
      DrawnDocument(draws[0], wallet, expiresAt, now);
      AttemptsCreateFreshCode(codes, wallet, expiresAt, draws[1..], faults[1..], now);
    }
  }

  /**
   * The attempts give up exactly when every draw gives a code already stored and the
   * store fails no attempt otherwise: only a duplicate code is retried.
   */
  lemma {:induction false} AttemptsExhaustedOnlyOnCollisions(codes: map<string, TransferCode>, wallet: string,
                                                             expiresAt: int, draws: seq<seq<Byte>>, faults: seq<bool>, now: int)
    requires WellDrawn(draws, faults) && NormalizeWallet(wallet) == wallet && wallet != ""
    ensures Attempts(codes, wallet, expiresAt, draws, faults, now).outcome == GenerateExhausted <==>
      forall k :: 0 <= k < |draws| ==> !faults[k] && CreateTransferCode(draws[k]) in codes
  {
    if |draws| > 0 {
      DrawnDocument(draws[0], wallet, expiresAt, now);
      AttemptsExhaustedOnlyOnCollisions(codes, wallet, expiresAt, draws[1..], faults[1..], now);
      if !faults[0] && CreateTransferCode(draws[0]) in codes {
        assert forall k :: 0 <= k < |draws[1..]| ==> draws[1..][k] == draws[k + 1] && faults[1..][k] == faults[k + 1];
      }
    }
  }

  /** Issuing refuses a missing wallet, then a malformed one, and then writes nothing. */
  lemma GenerateChecksWalletFirst(codes: map<string, TransferCode>, raw: Option<string>,
                                  draws: seq<seq<Byte>>, faults: seq<bool>, now: int)
    requires WellDrawn(draws, faults) && |draws| == MaxAttempts
    ensures var r := GenerateSpec(codes, raw, draws, faults, now);
      && (r.outcome == WalletRequired <==> RequestedWallet(raw) == "")
      && (r.outcome == WalletInvalid <==> RequestedWallet(raw) != "" && !IsAddress(RequestedWallet(raw)))
      && (r.outcome.CodeCreated? ==> IsAddress(RequestedWallet(raw)))
      && (!r.outcome.CodeCreated? ==> r.codes == codes)
  {
  }

  /**
   * A code issued is fresh, unused, 8 upper-case hexadecimal characters, bound to the
   * trimmed, lower-cased wallet and valid for ten minutes; the store stays keyed by code.
   */
  lemma GenerateIssuesFreshCode(codes: map<string, TransferCode>, raw: Option<string>,
                                draws: seq<seq<Byte>>, faults: seq<bool>, now: int)
    requires WellDrawn(draws, faults) && |draws| == MaxAttempts
    requires GenerateSpec(codes, raw, draws, faults, now).outcome.CodeCreated?
    ensures var r := GenerateSpec(codes, raw, draws, faults, now);
      var c := r.outcome.code;
      && c.code !in codes && r.codes == codes[c.code := c]
      && |c.code| == 8 && (forall k :: 0 <= k < 8 ==> IsUpperHexDigit(c.code[k]))
      && c.walletAddress == RequestedWallet(raw) && c.expiresAt == now + 600000 && !c.isUsed
      && (KeyedByCode(codes) ==> KeyedByCode(r.codes))
  {
    var wallet := RequestedWallet(raw);
    NormalizeWalletAgreesWithRoutes(OrEmpty(raw));
    AttemptsCreateFreshCode(codes, wallet, now + CodeLifetime, draws, faults, now);
  }

  /** With a valid wallet, the route answers 500 after five draws exactly when all five collide. */
  lemma GenerateExhaustedOnlyOnCollisions(codes: map<string, TransferCode>, raw: Option<string>,
                                          draws: seq<seq<Byte>>, faults: seq<bool>, now: int)
    requires WellDrawn(draws, faults) && |draws| == MaxAttempts
    requires RequestedWallet(raw) != "" && IsAddress(RequestedWallet(raw))
    ensures GenerateSpec(codes, raw, draws, faults, now).outcome == GenerateExhausted <==>
      forall k :: 0 <= k < MaxAttempts ==> !faults[k] && CreateTransferCode(draws[k]) in codes
  {
    NormalizeWalletAgreesWithRoutes(OrEmpty(raw));
    AttemptsExhaustedOnlyOnCollisions(codes, RequestedWallet(raw), now + CodeLifetime, draws, faults, now);
  }

  // ---------------------------------------------------------------- resolve

  /** The account fields the resolve route shows, with the Aadhaar number masked. */
  datatype UserView = UserView(
    id: string,
    name: string,
    role: AccountRole,
    aadhaar: Option<string>,
    employeeId: Option<string>,
    walletAddress: Option<string>,
    createdAt: int)

  function ViewUser(u: User): (v: UserView)
    ensures v.aadhaar.Some? ==> |v.aadhaar.value| == 12 && forall k :: 0 <= k < 8 ==> v.aadhaar.value[k] == 'X'
  {
    UserView(u.id, u.name, u.role, MaskAadhaar(u.aadhaar), OrNull(u.employeeId), OrNull(u.walletAddress), u.createdAt)
  }

  datatype ResolveOutcome =
    | ResolveCodeRequired
    | ResolveNotFound
    | ResolveUsed
    | ResolveExpired
    | Resolved(code: TransferCode, user: Option<UserView>)
  {
    function StatusCode(): int {
      match this
      case ResolveNotFound => 404
      case Resolved(_, _) => 200
      case _ => 400
    }
  }

  /** The code the resolve route looks up: trimmed, upper case. */
  function ResolvedKey(raw: string): string {
    Upper(Trim(raw))
  }

  /** GET /api/transfer/resolve/:code; it reads and never writes. */
  function ResolveSpec(codes: map<string, TransferCode>, users: seq<User>, raw: string, now: int): ResolveOutcome {
    var code := ResolvedKey(raw);
    if code == "" then ResolveCodeRequired
    else if code !in codes then ResolveNotFound
    else if codes[code].isUsed then ResolveUsed
    else if Expired(codes[code], now) then ResolveExpired
    else
      match FindUserByWallet(users, codes[code].walletAddress)
      case None => Resolved(codes[code], None)
      case Some(i) => Resolved(codes[code], Some(ViewUser(users[i])))
  }

  /**
   * Resolving answers with the stored code exactly when it exists, is unused and has
   * not expired; a used code is reported as used even when it has also expired.
   */
  lemma ResolveChecks(codes: map<string, TransferCode>, users: seq<User>, raw: string, now: int)
    ensures var r := ResolveSpec(codes, users, raw, now);
      var key := ResolvedKey(raw);
      && (r.Resolved? <==> key != "" && key in codes && !codes[key].isUsed && !Expired(codes[key], now))
      && (r.Resolved? ==> r.code == codes[key])
      && (key != "" && key in codes && codes[key].isUsed ==> r == ResolveUsed)
      && (r == ResolveExpired ==> key in codes && !codes[key].isUsed)
  {
  }

  /**
   * The account shown is the first one linked to the code's wallet, with the Aadhaar
   * number masked; it is null exactly when no account is linked to that wallet.
   */
  lemma ResolveShowsLinkedAccount(codes: map<string, TransferCode>, users: seq<User>, raw: string, now: int)
    requires ResolveSpec(codes, users, raw, now).Resolved?
    ensures var r := ResolveSpec(codes, users, raw, now);
      && (r.user.None? <==> forall j :: 0 <= j < |users| ==> users[j].walletAddress != Some(r.code.walletAddress))
      && (r.user.Some? ==>
            exists j :: 0 <= j < |users| && users[j].walletAddress == Some(r.code.walletAddress)
                        && r.user.value == ViewUser(users[j]))
  {
    var r := ResolveSpec(codes, users, raw, now);
    var found := FindUserByWallet(users, r.code.walletAddress);
    if found.Some? {
      assert users[found.value].walletAddress == Some(r.code.walletAddress);
    }
  }

  /**
   * A code that resolves can be redeemed at the same moment by its own wallet: the
   * ownership-transfer route's code checks pass for it.
   */
  lemma ResolvedCodeRedeemable(codes: map<string, TransferCode>, users: seq<User>, raw: string, now: int)
    requires ResolveSpec(codes, users, raw, now).Resolved?
    ensures OwnerTransfer.CheckCode(codes, ResolvedKey(raw), Lower(ResolveSpec(codes, users, raw, now).code.walletAddress), now).None?
  {
  }

  // ---------------------------------------------------------------- ledger lookup

  /** The ledger status of a registered property. */
  const Registered: nat := 2

  /** What the lookup reports for a property: its id, its owner and its status. */
  datatype ChainProperty = ChainProperty(id: nat, owner: string, status: nat)

  /** A row as the lookup reports it; a zero id stands for the id it was read under. */
  function RowView(row: Row, id: nat): ChainProperty {
    ChainProperty(if row.id == 0 then id else row.id, row.owner, row.status)
  }

  /**
   * The result of the preferred path, through the hash-to-id index: for a positive
   * id, the row `getProperty` reads, or when that read fails the row `properties`
   * reads; nothing when the index has no positive id or both reads fail.
   */
  function IndexedLookup(chain: Chain, hash: string): (r: Option<ChainProperty>)
    ensures r.Some? ==> chain.CallHashToPropertyId(hash).Some? && chain.CallHashToPropertyId(hash).value > 0
    ensures chain.CallHashToPropertyId(hash).Some? && chain.CallHashToPropertyId(hash).value > 0 ==>
      var id := chain.CallHashToPropertyId(hash).value;
      && (chain.CallGetProperty(id).Some? ==> r == Some(RowView(chain.CallGetProperty(id).value, id)))
      && (chain.CallGetProperty(id).None? && chain.CallProperties(id).Some? ==>
            r == Some(RowView(chain.CallProperties(id).value, id)))
      && (chain.CallGetProperty(id).None? && chain.CallProperties(id).None? ==> r.None?)
    ensures r.Some? ==> r.value.id > 0
  {
    match chain.CallHashToPropertyId(hash)
    case None => None
    case Some(id) =>
      if id == 0 then None
      else
        match chain.CallGetProperty(id)
        case Some(row) => Some(RowView(row, id))
        case None =>
          match chain.CallProperties(id)
          case Some(row) => Some(RowView(row, id))
          case None => None
  }

  datatype ScanResult = ScanFound(index: nat, property: ChainProperty) | ScanMissed | ScanAborted

  /** The descending scan over ids `i` down to 1; a failing read aborts the scan. */
  function ScanDown(chain: Chain, hash: string, i: nat): ScanResult
    decreases i
  {
    if i == 0 then ScanMissed
    else
      match chain.CallProperties(i)
      case None => ScanAborted
      case Some(row) =>
        if Trim(row.ipfsHash) == hash then ScanFound(i, RowView(row, i))
        else ScanDown(chain, hash, i - 1)
  }

  /** Row `k` can be read and its trimmed stored hash is `hash`. */
  predicate MatchesAt(chain: Chain, hash: string, k: nat) {
    chain.CallProperties(k).Some? && Trim(chain.CallProperties(k).value.ipfsHash) == hash
  }

  /**
   * The scan reports the highest id at most `n` whose trimmed stored hash is the one
   * sought, and every higher row could be read and did not match.
   */
  lemma {:induction false} ScanFindsHighest(chain: Chain, hash: string, n: nat)
    requires ScanDown(chain, hash, n).ScanFound?
    ensures var r := ScanDown(chain, hash, n);
      && 1 <= r.index <= n && MatchesAt(chain, hash, r.index)
      && r.property == RowView(chain.CallProperties(r.index).value, r.index)
      && forall k :: r.index < k <= n ==> chain.CallProperties(k).Some? && !MatchesAt(chain, hash, k)
  {
    if chain.CallProperties(n).Some? && !MatchesAt(chain, hash, n) {
      ScanFindsHighest(chain, hash, n - 1);
    }
  }

  /** The scan misses exactly when every row from 1 to `n` can be read and none matches. */
  lemma {:induction false} ScanMissesOnlyWithoutMatch(chain: Chain, hash: string, n: nat)
    ensures ScanDown(chain, hash, n).ScanMissed? <==>
      forall k :: 1 <= k <= n ==> chain.CallProperties(k).Some? && !MatchesAt(chain, hash, k)
  {
    if n > 0 {
      ScanMissesOnlyWithoutMatch(chain, hash, n - 1);
    }
  }

  /**
   * The legacy path: the owner from `getOwner`, else `documentOwner`, else the zero
   * address; the verified flag from `verifyProperty`, else `verifyHash`, else false.
   * A zero owner means the property is not on the ledger.
   */
  function LegacyLookup(chain: Chain, hash: string): (r: Option<ChainProperty>)
    ensures r.None? <==> Lower(chain.CallGetOwner(hash).GetOr(chain.CallDocumentOwner(hash).GetOr(ZeroAddress))) == ZeroAddress
    ensures r.Some? ==> r.value.id == 0 && r.value.owner == chain.CallGetOwner(hash).GetOr(chain.CallDocumentOwner(hash).GetOr(ZeroAddress))
    ensures r.Some? ==>
      (r.value.status == Registered <==> chain.CallVerifyProperty(hash).GetOr(chain.CallVerifyHash(hash).GetOr(false)))
  {
    var owner := match chain.CallGetOwner(hash)
      case Some(o) => o
      case None => chain.CallDocumentOwner(hash).GetOr(ZeroAddress);
    var verified := match chain.CallVerifyProperty(hash)
      case Some(v) => v
      case None => chain.CallVerifyHash(hash).GetOr(false);
    if Lower(owner) != Lower(ZeroAddress) then Some(ChainProperty(0, owner, if verified then Registered else 0))
    else None
  }

  /**
   * `getPropertyFromChainByHash`: the address must be configured and well formed and the
   * hash non-blank; then the index path, the descending scan and the legacy path are
   * tried in that order.
   */
  function LookupSpec(contractAddress: string, chain: Chain, hash: string): Result<Option<ChainProperty>, string> {
    if contractAddress == "" || !IsAddress(contractAddress) then Err("Invalid or missing CONTRACT_ADDRESS")
    else
      var h := Trim(hash);
      if h == "" then Err("Property hash is required")
      else
        match IndexedLookup(chain, h)
        case Some(p) => Ok(Some(p))
        case None =>
          match chain.CallPropertyCounter()
          case Some(count) =>
            (match ScanDown(chain, h, count)
             case ScanFound(_, p) => Ok(Some(p))
             case _ => Ok(LegacyLookup(chain, h)))
          case None => Ok(LegacyLookup(chain, h))
  }

  /** The descending scan: ids from the counter down to 1, the first match wins. */
  method ScanByHash(chain: Chain, hash: string, count: nat) returns (r: ScanResult)
    ensures r == ScanDown(chain, hash, count)
  {
    var i: nat := count;
    while i >= 1
      invariant i <= count
      invariant ScanDown(chain, hash, count) == ScanDown(chain, hash, i)
    {
      var row := chain.CallProperties(i);
      if row.None? {
        return ScanAborted;
      }
      var rowHash := Trim(row.value.ipfsHash);
      if rowHash == hash {
        return ScanFound(i, RowView(row.value, i));
      }
      i := i - 1;
    }
    r := ScanMissed;
  }

  /** The legacy path, with its two fall-backs per value. */
  method LegacyByHash(chain: Chain, hash: string) returns (r: Option<ChainProperty>)
    ensures r == LegacyLookup(chain, hash)
  {
    var owner := ZeroAddress;
    var fromGetOwner := chain.CallGetOwner(hash);
    if fromGetOwner.Some? {
      owner := fromGetOwner.value;
    } else {
      owner := chain.CallDocumentOwner(hash).GetOr(ZeroAddress);
    }
    var isVerified := false;
    var fromVerifyProperty := chain.CallVerifyProperty(hash);
    if fromVerifyProperty.Some? {
      isVerified := fromVerifyProperty.value;
    } else {
      isVerified := chain.CallVerifyHash(hash).GetOr(false);
    }
    if Lower(owner) != Lower(ZeroAddress) {
      return Some(ChainProperty(0, owner, if isVerified then Registered else 0));
    }
    r := None;
  }

  /** `getPropertyFromChainByHash` */
  method GetPropertyFromChainByHash(contractAddress: string, chain: Chain, hash: string)
    returns (r: Result<Option<ChainProperty>, string>)
    ensures r == LookupSpec(contractAddress, chain, hash)
  {
    if contractAddress == "" || !IsAddress(contractAddress) {
      return Err("Invalid or missing CONTRACT_ADDRESS");
    }
    var normalizedHash := Trim(hash);
    if normalizedHash == "" {
      return Err("Property hash is required");
    }
    var indexed := IndexedLookup(chain, normalizedHash);
    if indexed.Some? {
      return Ok(indexed);
    }
    var count := chain.CallPropertyCounter();
    if count.Some? {
      var scanned := ScanByHash(chain, normalizedHash, count.value);
      if scanned.ScanFound? {
        return Ok(Some(scanned.property));
      }
    }
    var legacy := LegacyByHash(chain, normalizedHash);
    r := Ok(legacy);
  }

  /**
   * The lookup prefers the index: when the index gives a positive id whose row can be
   * read, that row is the answer, whatever the scan or the legacy path would say.
   */
  lemma LookupPrefersIndex(contractAddress: string, chain: Chain, hash: string)
    requires contractAddress != "" && IsAddress(contractAddress) && Trim(hash) != ""
    requires chain.CallHashToPropertyId(Trim(hash)).Some? && chain.CallHashToPropertyId(Trim(hash)).value > 0
    requires chain.CallGetProperty(chain.CallHashToPropertyId(Trim(hash)).value).Some?
    ensures var id := chain.CallHashToPropertyId(Trim(hash)).value;
      LookupSpec(contractAddress, chain, hash) == Ok(Some(RowView(chain.CallGetProperty(id).value, id)))
  {
  }

  /**
   * When neither the index nor the scan finds the hash, the answer comes from the
   * legacy path: null exactly for a zero owner, otherwise id 0 and the registered
   * status exactly when the ledger says the hash is verified.
   */
  lemma LookupFallsBackToLegacy(contractAddress: string, chain: Chain, hash: string)
    requires contractAddress != "" && IsAddress(contractAddress) && Trim(hash) != ""
    requires IndexedLookup(chain, Trim(hash)).None?
    requires chain.CallPropertyCounter().Some? ==> !ScanDown(chain, Trim(hash), chain.CallPropertyCounter().value).ScanFound?
    ensures LookupSpec(contractAddress, chain, hash) == Ok(LegacyLookup(chain, Trim(hash)))
  {
  }

  // ---------------------------------------------------------------- validate

  datatype ValidateOutcome =
    | ValidateHashRequired
    | ValidateWalletInvalid
    | ValidateFailed(message: string)
    | PropertyNotOnChain
    | PropertyNotRegistered
    | NotPropertyOwner
    | TransferAllowed(property: ChainProperty)
  {
    function StatusCode(): int {
      match this
      case ValidateFailed(_) => 500
      case PropertyNotOnChain => 404
      case NotPropertyOwner => 403
      case TransferAllowed(_) => 200
      case _ => 400
    }
  }

  /** POST /api/transfer/validate: read-only. */
  function ValidateSpec(contractAddress: string, chain: Chain, rawHash: Option<string>, rawWallet: Option<string>)
    : ValidateOutcome
  {
    var hash := Trim(OrEmpty(rawHash));
    var wallet := RequestedWallet(rawWallet);
    if hash == "" then ValidateHashRequired
    else if wallet == "" || !IsAddress(wallet) then ValidateWalletInvalid
    else
      match LookupSpec(contractAddress, chain, hash)
      case Err(m) => ValidateFailed("Transfer validation failed: " + m)
      case Ok(None) => PropertyNotOnChain
      case Ok(Some(p)) =>
        if p.status != Registered then PropertyNotRegistered
        else if Lower(p.owner) != wallet then NotPropertyOwner
        else TransferAllowed(p)
  }

  /**
   * The seller may proceed exactly when the hash and a well-formed wallet are given,
   * the ledger lists the property as registered, and its owner is that wallet up to
   * letter case.
   */
  lemma ValidateAllowsOnlyOwner(contractAddress: string, chain: Chain, rawHash: Option<string>, rawWallet: Option<string>)
    ensures var r := ValidateSpec(contractAddress, chain, rawHash, rawWallet);
      r.TransferAllowed? <==>
        && Trim(OrEmpty(rawHash)) != "" && IsAddress(RequestedWallet(rawWallet))
        && LookupSpec(contractAddress, chain, Trim(OrEmpty(rawHash))).Ok?
        && LookupSpec(contractAddress, chain, Trim(OrEmpty(rawHash))).value.Some?
        && LookupSpec(contractAddress, chain, Trim(OrEmpty(rawHash))).value.value.status == Registered
        && Lower(LookupSpec(contractAddress, chain, Trim(OrEmpty(rawHash))).value.value.owner) == RequestedWallet(rawWallet)
  {
  }
}

/**
 * The browser's ledger actions: finding the ledger's records for a document hash and
 * choosing one of them, reading a hash's state with the legacy fallbacks, registering
 * a hash from a citizen's wallet, pushing an approved hash from a reviewer's wallet
 * (then handing it to its owner), and the two read-only checks.
 *
 * The wallet connection, network and deployed-code checks that precede every action
 * are taken as passed; a ledger call that reverts is a key missing from the chain's
 * maps, as in `Ledger`.
 */
module PropertyActions {
  import opened Wrappers
  import opened Text
  import opened Ledger

  /** A ledger record as the browser reports it. */
  datatype EVaultProperty = EVaultProperty(id: nat, owner: string, ipfsHash: string, status: nat, approvalCount: nat)

  /** The status the ledger gives a fully registered record. */
  const RegisteredStatus: nat := 2

  // ---------------------------------------------------------------- findEVaultPropertiesByHash

  /** A row read through the hash index: its own id and hash when set, else the ones it was looked up by. */
  function IndexedEntry(row: Row, id: nat, hash: string): EVaultProperty {
    EVaultProperty(if row.id != 0 then row.id else id, row.owner, if row.ipfsHash != "" then row.ipfsHash else hash,
                   row.status, row.approvalCount)
  }

  /**
   * The preferred path: the id the hash index gives, when positive, read through
   * `getProperty`, else through `properties`; any failure falls through to the scan.
   */
  function IndexedProperty(chain: Chain, hash: string): (r: Option<EVaultProperty>)
    ensures r.Some? <==>
      && chain.CallHashToPropertyId(hash).Some? && chain.CallHashToPropertyId(hash).value > 0
      && (chain.CallGetProperty(chain.CallHashToPropertyId(hash).value).Some?
          || chain.CallProperties(chain.CallHashToPropertyId(hash).value).Some?)
    ensures r.Some? ==> r.value.id > 0
  {
    match chain.CallHashToPropertyId(hash)
    case None => None
    case Some(id) =>
      if id == 0 then None
      else
        match chain.CallGetProperty(id)
        case Some(row) => Some(IndexedEntry(row, id, hash))
        case None =>
          match chain.CallProperties(id)
          case Some(row) => Some(IndexedEntry(row, id, hash))
          case None => None
  }

  /** Whether the scan keeps the row with id `i`: it can be read and its trimmed hash is `hash`. */
  predicate RowMatches(chain: Chain, hash: string, i: nat) {
    chain.CallProperties(i).Some? && Trim(chain.CallProperties(i).value.ipfsHash) != ""
    && Trim(chain.CallProperties(i).value.ipfsHash) == hash
  }

  /** A row kept by the scan: its own id when set, else its position. */
  function ScanEntry(row: Row, i: nat): EVaultProperty {
    EVaultProperty(if row.id != 0 then row.id else i, row.owner, Trim(row.ipfsHash), row.status, row.approvalCount)
  }

  /** The rows with ids 1 to `n` the scan keeps, in id order. */
  function ScanMatches(chain: Chain, hash: string, n: nat): seq<EVaultProperty> {
    if n == 0 then []
    else
      var last := if RowMatches(chain, hash, n) then [ScanEntry(chain.CallProperties(n).value, n)] else [];
      ScanMatches(chain, hash, n - 1) + last
  }

  /** The scan keeps exactly the readable rows whose trimmed hash is the one sought, and no more rows than it reads. */
  lemma {:induction false} ScanMatchesExactly(chain: Chain, hash: string, n: nat)
    ensures |ScanMatches(chain, hash, n)| <= n
    ensures forall p :: p in ScanMatches(chain, hash, n) <==>
      exists i :: 1 <= i <= n && RowMatches(chain, hash, i) && p == ScanEntry(chain.CallProperties(i).value, i)
    ensures forall p :: p in ScanMatches(chain, hash, n) ==> p.ipfsHash == hash
  {
    if n > 0 {
      ScanMatchesExactly(chain, hash, n - 1);
    }
  }

  /** What `findEVaultPropertiesByHash` returns. */
  function FindPropertiesSpec(chain: Chain, hash: string): seq<EVaultProperty> {
    var h := Trim(hash);
    if h == "" then []
    else
      match IndexedProperty(chain, h)
      case Some(p) => [p]
      case None =>
        match chain.CallPropertyCounter()
        case None => []
        case Some(count) => ScanMatches(chain, h, count)
  }

  /** `findEVaultPropertiesByHash` */
  method FindEVaultPropertiesByHash(chain: Chain, hash: string) returns (matches: seq<EVaultProperty>)
    ensures matches == FindPropertiesSpec(chain, hash)
  {
    var h := Trim(hash);
    if h == "" {
      return [];
    }
    var indexed := IndexedProperty(chain, h);
    if indexed.Some? {
      return [indexed.value];
    }
    var count := chain.CallPropertyCounter();
    if count.None? {
      return [];
    }
    matches := [];
    var i := 1;
    while i <= count.value
      invariant 1 <= i <= count.value + 1
      invariant matches == ScanMatches(chain, h, i - 1)
    {
      var row := chain.CallProperties(i);
      if row.Some? {
        var rowHash := Trim(row.value.ipfsHash);
        if rowHash != "" && rowHash == h {
          matches := matches + [ScanEntry(row.value, i)];
        }
      }
      i := i + 1;
    }
  }

  /**
   * A blank hash, or an index miss with an unreadable counter, finds nothing; a hit in
   * the index is the only answer; otherwise the answer is the scan of ids 1 to the
   * counter, every entry of which carries the hash sought.
   */
  lemma FindPropertiesCases(chain: Chain, hash: string)
    ensures Blank(hash) ==> FindPropertiesSpec(chain, hash) == []
    ensures !Blank(hash) && IndexedProperty(chain, Trim(hash)).Some? ==>
      FindPropertiesSpec(chain, hash) == [IndexedProperty(chain, Trim(hash)).value]
    ensures !Blank(hash) && IndexedProperty(chain, Trim(hash)).None? && chain.CallPropertyCounter().None? ==>
      FindPropertiesSpec(chain, hash) == []
    ensures !Blank(hash) && IndexedProperty(chain, Trim(hash)).None? && chain.CallPropertyCounter().Some? ==>
      forall p :: p in FindPropertiesSpec(chain, hash) ==> p.ipfsHash == Trim(hash)
  {
    if !Blank(hash) && IndexedProperty(chain, Trim(hash)).None? && chain.CallPropertyCounter().Some? {
      ScanMatchesExactly(chain, Trim(hash), chain.CallPropertyCounter().value);
    }
  }

  // ---------------------------------------------------------------- findEVaultPropertyByHash

  /** `matches.filter(m => m.owner.toLowerCase() === owner)` */
  function OwnedBy(xs: seq<EVaultProperty>, owner: string): (r: seq<EVaultProperty>)
    ensures forall x :: x in r <==> x in xs && Lower(x.owner) == owner
  {
    if |xs| == 0 then []
    else (if Lower(xs[0].owner) == owner then [xs[0]] else []) + OwnedBy(xs[1..], owner)
  }

  /** `matches.filter(m => m.status === 2)` */
  function RegisteredOnly(xs: seq<EVaultProperty>): (r: seq<EVaultProperty>)
    ensures forall x :: x in r <==> x in xs && x.status == RegisteredStatus
  {
    if |xs| == 0 then []
    else (if xs[0].status == RegisteredStatus then [xs[0]] else []) + RegisteredOnly(xs[1..])
  }

  /**
   * `xs.sort((a, b) => b.id - a.id)[0]`: the sort is stable, so this is the first of
   * the records with the highest id.
   */
  function Latest(xs: seq<EVaultProperty>): (r: EVaultProperty)
    requires |xs| > 0
    ensures r in xs
    ensures forall x :: x in xs ==> x.id <= r.id
    ensures exists i :: 0 <= i < |xs| && xs[i] == r && forall k :: 0 <= k < i ==> xs[k].id < r.id
  {
    if |xs| == 1 then xs[0]
    else
      var rest := Latest(xs[1..]);
      if xs[0].id >= rest.id then xs[0]
      else
        var i :| 0 <= i < |xs[1..]| && xs[1..][i] == rest && forall k :: 0 <= k < i ==> xs[1..][k].id < rest.id;
        assert xs[i + 1] == rest && forall k :: 0 <= k < i + 1 ==> xs[k].id < rest.id;
        rest
  }

  /**
   * `findEVaultPropertyByHash`'s choice among the matches: the latest one the preferred
   * owner holds (compared in lower case), else the latest fully registered one, else
   * the latest one.
   */
  function SelectProperty(matches: seq<EVaultProperty>, preferredOwner: Option<string>): Option<EVaultProperty> {
    if |matches| == 0 then None
    else
      var owner := Lower(Trim(OrEmpty(preferredOwner)));
      var owned := OwnedBy(matches, owner);
      if owner != "" && |owned| > 0 then Some(Latest(owned))
      else
        var registered := RegisteredOnly(matches);
        if |registered| > 0 then Some(Latest(registered)) else Some(Latest(matches))
  }

  /** The preference order of the choice, each tier ending in the highest id. */
  lemma SelectionPreference(matches: seq<EVaultProperty>, preferredOwner: Option<string>)
    ensures var r := SelectProperty(matches, preferredOwner);
      var owner := Lower(Trim(OrEmpty(preferredOwner)));
      var ownsOne := owner != "" && exists m :: m in matches && Lower(m.owner) == owner;
      var registeredOne := exists m :: m in matches && m.status == RegisteredStatus;
      && (r.None? <==> |matches| == 0)
      && (r.Some? ==> r.value in matches)
      && (ownsOne ==>
            Lower(r.value.owner) == owner && forall m :: m in matches && Lower(m.owner) == owner ==> m.id <= r.value.id)
      && (!ownsOne && registeredOne ==>
            r.value.status == RegisteredStatus && forall m :: m in matches && m.status == RegisteredStatus ==> m.id <= r.value.id)
      && (!ownsOne && !registeredOne && r.Some? ==> forall m :: m in matches ==> m.id <= r.value.id)
  {
    var owner := Lower(Trim(OrEmpty(preferredOwner)));
    if owner != "" && exists m :: m in matches && Lower(m.owner) == owner {
      var m :| m in matches && Lower(m.owner) == owner;
      assert m in OwnedBy(matches, owner);
    } else if exists m :: m in matches && m.status == RegisteredStatus {
      var m :| m in matches && m.status == RegisteredStatus;
      assert m in RegisteredOnly(matches);
    }
  }

  // ---------------------------------------------------------------- getPropertyStateOnChain

  /** The owner through `getOwner`, else `documentOwner`, else the zero address. */
  function LegacyOwner(chain: Chain, hash: string): string {
    match chain.CallGetOwner(hash)
    case Some(o) => o
    case None => chain.CallDocumentOwner(hash).GetOr(ZeroAddress)
  }

  /** The flag through `verifyProperty`, else `verifyHash`, else false. */
  function LegacyVerified(chain: Chain, hash: string): bool {
    match chain.CallVerifyProperty(hash)
    case Some(v) => v
    case None => chain.CallVerifyHash(hash).GetOr(false)
  }

  /**
   * `getPropertyStateOnChain`: the chosen record when the hash has one; otherwise a
   * record built from the legacy reads (id 0, no approvals, status 2 exactly when
   * verified) for a real owner, or the error "not found".
   */
  function GetPropertyStateOnChain(chain: Chain, hash: string, preferredOwner: Option<string>)
    : Result<EVaultProperty, string>
  {
    var h := Trim(hash);
    match SelectProperty(FindPropertiesSpec(chain, h), preferredOwner)
    case Some(p) => Ok(p)
    case None =>
      var owner := LegacyOwner(chain, h);
      if owner != "" && Lower(owner) != ZeroAddress then
        Ok(EVaultProperty(0, owner, h, if LegacyVerified(chain, h) then RegisteredStatus else 0, 0))
      else Err("Property hash was not found on-chain.")
  }

  /**
   * With records for the hash the state is the chosen one; without, it is the legacy
   * reading, which fails exactly when the ledger knows no real owner.
   */
  lemma PropertyStateFallback(chain: Chain, hash: string, preferredOwner: Option<string>)
    ensures var r := GetPropertyStateOnChain(chain, hash, preferredOwner);
      var found := FindPropertiesSpec(chain, Trim(hash));
      var owner := LegacyOwner(chain, Trim(hash));
      && (|found| > 0 ==> r == Ok(SelectProperty(found, preferredOwner).value))
      && (|found| == 0 ==>
            && (r.Err? <==> owner == "" || Lower(owner) == ZeroAddress)
            && (r.Ok? ==>
                  && r.value.id == 0 && r.value.approvalCount == 0 && r.value.owner == owner
                  && r.value.ipfsHash == Trim(hash)
                  && (r.value.status == RegisteredStatus <==> LegacyVerified(chain, Trim(hash)))))
  {
    TrimIdempotent(hash);
    SelectionPreference(FindPropertiesSpec(chain, Trim(hash)), preferredOwner);
  }

  // ---------------------------------------------------------------- registerPropertyOnChain

  datatype RegisterOutcome = RegistrarRefused | AlreadyRegistered | RegisteredTx(txHash: string) | RegisterFailed(message: string)

  /**
   * `registerPropertyOnChain` from the signer's wallet: a wallet the ledger lists as a
   * registrar is refused; a hash the ledger already verifies is not sent again; a
   * `registerProperty` refused as "already exists" (in any case) counts as registered,
   * and one refused because the entrypoint is missing falls back to `storeHash`.
   * `signer` is the wallet's address in lower case, as the registrar set holds them.
   */
  function RegisterSpec(chain: Chain, signer: string, hash: string, registerTx: Attempt, storeTx: Attempt)
    : RegisterOutcome
  {
    if signer in chain.registrars then RegistrarRefused
    else if chain.CallVerifyHash(hash) == Some(true) then AlreadyRegistered
    else
      match registerTx
      case Mined(t) => RegisteredTx(t)
      case _ =>
        var m := registerTx.message;
        if Contains(Lower(m), "already exists") then AlreadyRegistered
        else if Contains(m, "is not a function") || Contains(m, "missing revert data") then
          match storeTx
          case Mined(t) => RegisteredTx(t)
          case _ => RegisterFailed(storeTx.message)
        else RegisterFailed(m)
  }

  /**
   * A registrar's wallet never registers; a hash the ledger verifies is reported as
   * registered whatever the transactions would do; `storeHash` is used only after
   * `registerProperty` was refused for a missing entrypoint.
   */
  lemma RegisterGuards(chain: Chain, signer: string, hash: string, registerTx: Attempt, storeTx: Attempt,
                       otherRegister: Attempt, otherStore: Attempt)
    ensures signer in chain.registrars ==> RegisterSpec(chain, signer, hash, registerTx, storeTx) == RegistrarRefused
    ensures signer !in chain.registrars && chain.CallVerifyHash(hash) == Some(true) ==>
      RegisterSpec(chain, signer, hash, registerTx, storeTx) == AlreadyRegistered
      && RegisterSpec(chain, signer, hash, otherRegister, otherStore) == AlreadyRegistered
    ensures (|| registerTx.Mined? || Contains(Lower(registerTx.message), "already exists")
             || !(Contains(registerTx.message, "is not a function") || Contains(registerTx.message, "missing revert data")))
      ==> RegisterSpec(chain, signer, hash, registerTx, storeTx) == RegisterSpec(chain, signer, hash, registerTx, otherStore)
  {
  }

  // ---------------------------------------------------------------- pushHashOnChainWithWallet

  /** The registration step of a push: the hash of the first mined transaction ("" if none) and the last error before it. */
  datatype Registration = Registration(txHash: string, lastError: Option<string>)

  /**
   * Trying the entrypoints in order until one is sent and mined; any failure moves on,
   * and when every one fails the last error is that of the last attempt.
   */
  function PushRegistration(attempts: seq<Attempt>, lastError: Option<string>): (r: Registration)
    ensures (forall k :: 0 <= k < |attempts| ==> !attempts[k].Mined?) ==>
      && r.txHash == ""
      && r.lastError == if |attempts| == 0 then lastError else Some(attempts[|attempts| - 1].message)
    ensures (exists k :: 0 <= k < |attempts| && attempts[k].Mined?) ==>
      exists k :: 0 <= k < |attempts| && attempts[k] == Mined(r.txHash)
                  && forall j :: 0 <= j < k ==> !attempts[j].Mined?
  {
    if |attempts| == 0 then Registration("", lastError)
    else
      match attempts[0]
      case Mined(h) => Registration(h, lastError)
      case SubmitFailed(m) =>
        var r := PushRegistration(attempts[1..], Some(m));
        assert forall k :: 1 <= k < |attempts| ==> attempts[k] == attempts[1..][k - 1];
        r
      case WaitFailed(_, m) =>
        var r := PushRegistration(attempts[1..], Some(m));
        assert forall k :: 1 <= k < |attempts| ==> attempts[k] == attempts[1..][k - 1];
        r
  }

  /** The registration loop. */
  method Register(attempts: seq<Attempt>) returns (r: Registration)
    ensures r == PushRegistration(attempts, None)
  {
    var lastError: Option<string> := None;
    var k := 0;
    while k < |attempts|
      invariant 0 <= k <= |attempts|
      invariant PushRegistration(attempts[k..], lastError) == PushRegistration(attempts, None)
    {
      assert attempts[k..][1..] == attempts[k + 1..];
      match attempts[k] {
        case Mined(h) => return Registration(h, lastError);
        case SubmitFailed(m) => lastError := Some(m);
        case WaitFailed(_, m) => lastError := Some(m);
      }
      k := k + 1;
    }
    return Registration("", lastError);
  }

  /** `lastError?.reason || … || "unknown error"` */
  function ErrorText(e: Option<string>): string {
    if Truthy(e) then e.value else "unknown error"
  }

  /** A `transferProperty` call: by the ledger's property id, or by hash, to a new owner. */
  datatype TransferCall = TransferById(propertyId: nat, newOwner: string) | TransferByHash(hash: string, newOwner: string)

  /**
   * The outcome of the transfer transaction a hand-over sends as its `step`-th try
   * (0, 1 or 2), given the call it encodes.
   */
  datatype TransferWriter = TransferWriter(send: (nat, TransferCall) -> Attempt)

  /**
   * The hand-over of `hash` to `owner` after a push, on the ledger as it is after the
   * registration: transfer by the id the state read gives (when it has one), else by
   * hash, else by the id a fresh lookup gives; the hash of the first mined transfer, or
   * the last error.
   */
  function TransferSpec(after: Chain, signer: string, owner: string, hash: string, tw: TransferWriter): Result<string, string> {
    var state := GetPropertyStateOnChain(after, hash, Some(signer));
    var byId := tw.send(0, TransferById(if state.Ok? then state.value.id else 0, owner));
    var byHash := tw.send(1, TransferByHash(hash, owner));
    if state.Ok? && state.value.id != 0 && byId.Mined? then Ok(byId.txHash)
    else if byHash.Mined? then Ok(byHash.txHash)
    else
      match SelectProperty(FindPropertiesSpec(after, hash), Some(signer))
      case Some(p) =>
        var byIdAgain := tw.send(2, TransferById(p.id, owner));
        if p.id == 0 then Err(ErrorText(Some(byHash.message)))
        else if byIdAgain.Mined? then Ok(byIdAgain.txHash)
        else Err(ErrorText(Some(byIdAgain.message)))
      case None => Err(ErrorText(Some(byHash.message)))
  }

  /**
   * A hand-over that succeeds was mined from a transfer to the intended owner, either
   * of this hash or of a property id the ledger gives for it.
   */
  lemma TransferGoesToOwner(after: Chain, signer: string, owner: string, hash: string, tw: TransferWriter)
    requires TransferSpec(after, signer, owner, hash, tw).Ok?
    ensures exists step: nat, call: TransferCall ::
      && step < 3 && tw.send(step, call) == Mined(TransferSpec(after, signer, owner, hash, tw).value)
      && call.newOwner == owner
      && (call.TransferByHash? ==> call.hash == hash)
      && (call.TransferById? ==> call.propertyId != 0)
  {
    var r := TransferSpec(after, signer, owner, hash, tw);
    var state := GetPropertyStateOnChain(after, hash, Some(signer));
    var chosen := SelectProperty(FindPropertiesSpec(after, hash), Some(signer));
    if state.Ok? && state.value.id != 0 && tw.send(0, TransferById(state.value.id, owner)).Mined? {
      assert tw.send(0, TransferById(state.value.id, owner)) == Mined(r.value);
    } else if tw.send(1, TransferByHash(hash, owner)).Mined? {
      assert tw.send(1, TransferByHash(hash, owner)) == Mined(r.value);
    } else {
      assert tw.send(2, TransferById(chosen.value.id, owner)) == Mined(r.value);
    }
  }

  /**
   * A hand-over whose transfer by hash fails, and which finds no id to retry with,
   * reports that transfer's error; one that retries by id and fails reports the
   * retry's error.
   */
  lemma TransferFailureReportsLastError(after: Chain, signer: string, owner: string, hash: string, tw: TransferWriter)
    requires TransferSpec(after, signer, owner, hash, tw).Err?
    ensures var chosen := SelectProperty(FindPropertiesSpec(after, hash), Some(signer));
      var byHash := tw.send(1, TransferByHash(hash, owner));
      && !byHash.Mined?
      && TransferSpec(after, signer, owner, hash, tw).error == ErrorText(Some(
           if chosen.Some? && chosen.value.id != 0 then tw.send(2, TransferById(chosen.value.id, owner)).message
           else byHash.message))
  {
    var state := GetPropertyStateOnChain(after, hash, Some(signer));
    var byId := tw.send(0, TransferById(if state.Ok? then state.value.id else 0, owner));
    assert !(state.Ok? && state.value.id != 0 && byId.Mined?);
  }

  datatype PushOutcome =
    | PushHashRequired
    | PushFailed(message: string)
    | Pushed(registrationTxHash: string, transferTxHash: string)
    | PushedTransferFailed(message: string)

  /** Whether a push hands the hash over: the intended owner is an address other than the signer's. */
  predicate HandsOver(intendedOwner: string, signer: string) {
    intendedOwner != "" && IsAddress(intendedOwner) && intendedOwner != signer
  }

  /** What `pushHashOnChainWithWallet` returns or throws. */
  function PushSpec(writer: Writer, after: Chain, signerAddress: string, hash: string, intendedOwner: Option<string>,
                    tw: TransferWriter): PushOutcome
  {
    var signer := Lower(signerAddress);
    var h := Trim(hash);
    var owner := Lower(Trim(OrEmpty(intendedOwner)));
    if h == "" then PushHashRequired
    else
      var reg := PushRegistration(writer.Attempts(h), None);
      if reg.txHash == "" then PushFailed("Wallet chain push failed: " + ErrorText(reg.lastError))
      else if !HandsOver(owner, signer) then Pushed(reg.txHash, "")
      else
        match TransferSpec(after, signer, owner, h, tw)
        case Ok(t) => Pushed(reg.txHash, t)
        case Err(m) => PushedTransferFailed("Hash pushed, but owner transfer to intended wallet failed: " + m)
  }

  /** The hand-over, step by step. */
  method TransferToOwner(after: Chain, signer: string, owner: string, hash: string, tw: TransferWriter)
    returns (r: Result<string, string>)
    ensures r == TransferSpec(after, signer, owner, hash, tw)
  {
    var transferError: Option<string> := None;
    var state := GetPropertyStateOnChain(after, hash, Some(signer));
    if state.Ok? && state.value.id != 0 {
      var tx := tw.send(0, TransferById(state.value.id, owner));
      if tx.Mined? {
        return Ok(tx.txHash);
      }
      transferError := Some(tx.message);
    } else if state.Err? {
      transferError := Some(state.error);
    }
    var tx := tw.send(1, TransferByHash(hash, owner));
    if tx.Mined? {
      return Ok(tx.txHash);
    }
    transferError := Some(tx.message);
    var chosen := SelectProperty(FindPropertiesSpec(after, hash), Some(signer));
    if chosen.Some? && chosen.value.id != 0 {
      tx := tw.send(2, TransferById(chosen.value.id, owner));
      if tx.Mined? {
        return Ok(tx.txHash);
      }
      transferError := Some(tx.message);
    }
    return Err(ErrorText(transferError));
  }

  /** `pushHashOnChainWithWallet` */
  method PushHashOnChainWithWallet(writer: Writer, after: Chain, signerAddress: string, hash: string,
                                   intendedOwner: Option<string>, tw: TransferWriter) returns (outcome: PushOutcome)
    ensures outcome == PushSpec(writer, after, signerAddress, hash, intendedOwner, tw)
  {
    var signer := Lower(signerAddress);
    var h := Trim(hash);
    var owner := Lower(Trim(OrEmpty(intendedOwner)));
    if h == "" {
      return PushHashRequired;
    }
    var reg := Register(writer.Attempts(h));
    if reg.txHash == "" {
      return PushFailed("Wallet chain push failed: " + ErrorText(reg.lastError));
    }
    if owner != "" && IsAddress(owner) && owner != signer {
      var transfer := TransferToOwner(after, signer, owner, h, tw);
      if transfer.Err? {
        return PushedTransferFailed("Hash pushed, but owner transfer to intended wallet failed: " + transfer.error);
      }
      return Pushed(reg.txHash, transfer.value);
    }
    return Pushed(reg.txHash, "");
  }

  /**
   * A push registers the trimmed hash through the first entrypoint, in order, whose
   * transaction is mined; when none is, it fails with the `storeHash` attempt's error.
   */
  lemma PushOrderAndHandOver(writer: Writer, after: Chain, signerAddress: string, hash: string,
                             intendedOwner: Option<string>, tw: TransferWriter)
    ensures var r := PushSpec(writer, after, signerAddress, hash, intendedOwner, tw);
      var h := Trim(hash);
      var owner := Lower(Trim(OrEmpty(intendedOwner)));
      && (r == PushHashRequired <==> Blank(hash))
      && (!Blank(hash) && (forall k :: 0 <= k < 3 ==> !writer.send(RegistrationOrder[k], h).Mined?) ==>
            r == PushFailed("Wallet chain push failed: " + ErrorText(Some(writer.send(StoreHash, h).message))))
      && (r.Pushed? ==> exists k :: 0 <= k < 3 && writer.send(RegistrationOrder[k], h) == Mined(r.registrationTxHash)
                                    && forall j :: 0 <= j < k ==> !writer.send(RegistrationOrder[j], h).Mined?)
  {
    var h := Trim(hash);
    if h != "" {
      var reg := PushRegistration(writer.Attempts(h), None);
      RegistrationFollowsOrder(writer, h);
      var r := PushSpec(writer, after, signerAddress, hash, intendedOwner, tw);
      assert reg.txHash == "" ==> r == PushFailed("Wallet chain push failed: " + ErrorText(reg.lastError));
      assert r.Pushed? ==> r.registrationTxHash == reg.txHash;
    }
  }

  /** The registration loop over one writer's three attempts, stated per entrypoint. */
  lemma RegistrationFollowsOrder(writer: Writer, h: string)
    ensures var reg := PushRegistration(writer.Attempts(h), None);
      && ((forall k :: 0 <= k < 3 ==> !writer.send(RegistrationOrder[k], h).Mined?) ==>
            reg.txHash == "" && reg.lastError == Some(writer.send(StoreHash, h).message))
      && (reg.txHash != "" ==>
            exists k :: 0 <= k < 3 && writer.send(RegistrationOrder[k], h) == Mined(reg.txHash)
                        && forall j :: 0 <= j < k ==> !writer.send(RegistrationOrder[j], h).Mined?)
  {
    var attempts := writer.Attempts(h);
    assert attempts[2] == writer.send(StoreHash, h);
    var reg := PushRegistration(attempts, None);
    if reg.txHash != "" {
      assert exists k :: 0 <= k < |attempts| && attempts[k].Mined?;
    }
  }

  /**
   * A push attempts a hand-over only to an intended owner that is an address other
   * than the signer's, and otherwise reports an empty transfer hash.
   */
  lemma PushHandsOverOnlyToOtherOwner(writer: Writer, after: Chain, signerAddress: string, hash: string,
                                      intendedOwner: Option<string>, tw: TransferWriter)
    ensures var r := PushSpec(writer, after, signerAddress, hash, intendedOwner, tw);
      var owner := Lower(Trim(OrEmpty(intendedOwner)));
      && (r.Pushed? && !HandsOver(owner, Lower(signerAddress)) ==> r.transferTxHash == "")
      && (r.PushedTransferFailed? ==> HandsOver(owner, Lower(signerAddress)))
  {
  }

  // ---------------------------------------------------------------- read-only checks

  /** `verifyPropertyOnChain`: `verifyProperty`, else `verifyHash`, else false. */
  function VerifyPropertyOnChain(chain: Chain, hash: string): (r: bool)
    ensures chain.CallVerifyProperty(hash).Some? ==> r == chain.CallVerifyProperty(hash).value
    ensures chain.CallVerifyProperty(hash).None? && chain.CallVerifyHash(hash).Some? ==>
      r == chain.CallVerifyHash(hash).value
    ensures chain.CallVerifyProperty(hash).None? && chain.CallVerifyHash(hash).None? ==> !r
  {
    LegacyVerified(chain, hash)
  }

  /**
   * `propertyExistsOnChain`: `verifyHash`, else whether `getOwner` names an owner other
   * than the zero address, else null.
   */
  function PropertyExistsOnChain(chain: Chain, hash: string): (r: Option<bool>)
    ensures chain.CallVerifyHash(hash).Some? ==> r == Some(chain.CallVerifyHash(hash).value)
    ensures r.None? <==> chain.CallVerifyHash(hash).None? && chain.CallGetOwner(hash).None?
    ensures chain.CallVerifyHash(hash).None? && chain.CallGetOwner(hash).Some? ==>
      (r == Some(true) <==> chain.CallGetOwner(hash).value !in {"", ZeroAddress})
  {
    match chain.CallVerifyHash(hash)
    case Some(b) => Some(b)
    case None =>
      match chain.CallGetOwner(hash)
      case Some(o) => Some(o != "" && o != ZeroAddress)
      case None => None
  }
}

/**
 * One-time transfer codes: an 8-character code bound to the buyer's wallet, valid
 * until `expiresAt` and usable once. The store keeps codes unique, normalises the
 * code to upper case and the wallet to lower case (both trimmed), stamps creation
 * and update times, and may delete a code once its expiry time has passed.
 */
module TransferCodes {
  import opened Wrappers
  import opened Text

  datatype TransferCode = TransferCode(
    code: string,
    walletAddress: string,
    expiresAt: int,
    isUsed: bool,
    createdAt: int,
    updatedAt: int)

  /** The schema's setters on `code`: upper case, then trimmed. */
  function NormalizeCode(raw: string): string {
    Trim(Upper(raw))
  }

  /** The schema's setters on `walletAddress`: lower case, then trimmed. */
  function NormalizeWallet(raw: string): string {
    Trim(Lower(raw))
  }

  /**
   * The schema's normalisation agrees with the routes' `trim().toUpperCase()`, so a
   * code looked up the way the routes normalise it is found under the key it was
   * stored with, and normalising twice changes nothing.
   */
  lemma NormalizeCodeAgreesWithRoutes(raw: string)
    ensures NormalizeCode(raw) == Upper(Trim(raw))
    ensures NormalizeCode(NormalizeCode(raw)) == NormalizeCode(raw)
  {
    UpperTrimCommute(raw);
    UpperTrimCommute(Trim(raw));
    TrimIdempotent(raw);
    UpperIdempotent(Trim(raw));
  }

  lemma NormalizeWalletAgreesWithRoutes(raw: string)
    ensures NormalizeWallet(raw) == Lower(Trim(raw))
    ensures NormalizeWallet(NormalizeWallet(raw)) == NormalizeWallet(raw)
  {
    LowerTrimCommute(raw);
    LowerTrimCommute(Trim(raw));
    TrimIdempotent(raw);
    LowerIdempotent(Trim(raw));
  }

  /**
   * `TransferCode.create`: normalises both strings, defaults `isUsed` to false and
   * stamps both times with `now`; an empty code or wallet fails validation.
   */
  function NewTransferCode(code: string, wallet: string, expiresAt: int, now: int): (r: Option<TransferCode>)
    ensures r.Some? <==> NormalizeCode(code) != "" && NormalizeWallet(wallet) != ""
    ensures r.Some? ==>
      && r.value.code == NormalizeCode(code) && r.value.walletAddress == NormalizeWallet(wallet)
      && r.value.expiresAt == expiresAt && !r.value.isUsed
      && r.value.createdAt == now && r.value.updatedAt == now
  {
    var c := NormalizeCode(code);
    var w := NormalizeWallet(wallet);
    if c == "" || w == "" then None else Some(TransferCode(c, w, expiresAt, false, now, now))
  }

  /** Both routes treat a code whose expiry time is not in the future as expired. */
  predicate Expired(c: TransferCode, now: int) {
    c.expiresAt <= now
  }

  /** `updateOne({ $set: { isUsed: true } })`, which also refreshes `updatedAt`. */
  function MarkUsed(c: TransferCode, now: int): (r: TransferCode)
    ensures r.isUsed
    ensures r.code == c.code && r.walletAddress == c.walletAddress && r.expiresAt == c.expiresAt
    ensures r.createdAt == c.createdAt && r.updatedAt == now
  {
    c.(isUsed := true, updatedAt := now)
  }

  /** The code collection: each code is stored under its own (unique) value. */
  predicate KeyedByCode(codes: map<string, TransferCode>) {
    forall k :: k in codes ==> codes[k].code == k
  }

  /** A TTL deletion pass: removes every code whose expiry time has passed. */
  function SweepExpired(codes: map<string, TransferCode>, now: int): (r: map<string, TransferCode>)
    ensures forall k :: k in r <==> k in codes && !Expired(codes[k], now)
    ensures forall k :: k in r ==> r[k] == codes[k]
    ensures KeyedByCode(codes) ==> KeyedByCode(r)
  {
    map k | k in codes && !Expired(codes[k], now) :: codes[k]
  }
}

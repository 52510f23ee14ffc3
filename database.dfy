/**
 * The document store: the property records, the transfer codes and the accounts.
 * Records are kept in insertion order and are not unique by hash, so a lookup by
 * hash finds the first one; codes are keyed by their (unique) code.
 */
module Database {
  import opened Wrappers
  import FileSchema
  import TransferCodes
  import UserSchema

  /** `File.findOne({ ipfshash: hash })`: the position of the first record with that hash. */
  function FindFile(files: seq<FileSchema.PropertyRecord>, hash: string): (r: Option<nat>)
    ensures r.Some? ==> r.value < |files| && files[r.value].ipfshash == hash
    ensures r.Some? ==> forall j :: 0 <= j < r.value ==> files[j].ipfshash != hash
    ensures r.None? ==> forall j :: 0 <= j < |files| ==> files[j].ipfshash != hash
  {
    if |files| == 0 then None
    else if files[0].ipfshash == hash then Some(0)
    else
      match FindFile(files[1..], hash)
      case None => None
      case Some(i) => Some(i + 1)
  }

  /** `User.findOne({ walletAddress: wallet })`: the position of the first account linked to that wallet. */
  function FindUserByWallet(users: seq<UserSchema.User>, wallet: string): (r: Option<nat>)
    ensures r.Some? ==> r.value < |users| && users[r.value].walletAddress == Some(wallet)
    ensures r.Some? ==> forall j :: 0 <= j < r.value ==> users[j].walletAddress != Some(wallet)
    ensures r.None? ==> forall j :: 0 <= j < |users| ==> users[j].walletAddress != Some(wallet)
  {
    if |users| == 0 then None
    else if users[0].walletAddress == Some(wallet) then Some(0)
    else
      match FindUserByWallet(users[1..], wallet)
      case None => None
      case Some(i) => Some(i + 1)
  }

  /** Several records may carry the same hash: the store has no unique index on it. */
  lemma DuplicateHashesAllowed(a: FileSchema.PropertyRecord, b: FileSchema.PropertyRecord)
    requires a.ipfshash == b.ipfshash
    ensures FindFile([a, b], a.ipfshash) == Some(0)
  {
  }

  class Db {
    var files: seq<FileSchema.PropertyRecord>
    var codes: map<string, TransferCodes.TransferCode>
    var users: seq<UserSchema.User>

    /** The unique indexes hold: codes are stored under their own value, accounts are unique. */
    predicate Valid()
      reads this
    {
      TransferCodes.KeyedByCode(codes) && UserSchema.UsersUnique(users)
    }

    constructor ()
      ensures files == [] && codes == map[] && users == []
      ensures Valid()
    {
      files := [];
      codes := map[];
      users := [];
    }

    /** The TTL index at work: every code whose expiry time has passed disappears. */
    method SweepExpiredCodes(now: int)
      requires Valid()
      modifies this
      ensures codes == TransferCodes.SweepExpired(old(codes), now)
      ensures files == old(files) && users == old(users)
      ensures Valid()
    {
      codes := TransferCodes.SweepExpired(codes, now);
    }
  }
}

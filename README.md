# eVault property review and ownership, in Dafny

This project models the core of eVault, a land-record service. A citizen uploads a property document. The service stores it under its content hash (an IPFS hash). Three reviewer roles then decide on it: the registrar, the notary and the local authority. Two approvals move the record to "approved, pending chain". The record becomes final once its hash is registered on the ledger, an Ethereum contract. Two rejects reject it. Ownership lives on the ledger. The backend keeps each stored record in step with the ledger's owner and verification flag. A one-time transfer code binds a sale to the buyer's wallet.

Modelled parts:

- the record schema and the workflow reconciliation (`computeDecisionStats`, `reconcileWorkflowState`);
- the ledger synchronisation of records (`syncFileWithChain`);
- the Express routes for listing, review, chain push, confirmation and ownership transfer;
- the transfer-code routes and the code schema with its expiry index;
- the ledger service: configuration, the fallback order of the write entrypoints, and the reads;
- the verification and property-owner routes;
- the account routes (sign-up, log-in, wallet linking, search by wallet) and the account schema with its pre-validate hook;
- the browser helpers: the stored role, status labels, the property list and the ownership history;
- the browser's contract actions: lookup by hash, registration, and push with hand-over;
- the logic of the two dashboards that drives these routes.

Each route is a method on an in-memory store, the class `Database.Db`. The method is proved to return and store what a pure `...Spec` function of the old store says. The properties are lemmas about those functions. The ledger is a value of type `Ledger.Chain`. Its calls return `Option`s, so every call can fail. Time, random bytes, the key-derivation function and the locale formatting are parameters.

The model follows the code as written in three places where the code and its description differ:

- `PATCH /api/files/review` accepts the `citizen` role. The record schema has no citizen slot, so a citizen's decision is never stored. `ReviewRoutes.CitizenReviewRecordsNothing` states this.
- `PATCH /api/files/transfer-owner` checks "code already used" before "code expired". A code that is both is reported as used. `OwnerTransfer.UsedReportedBeforeExpired` states this.
- The ledger sync compares owners with exact string equality. The ownership-transfer route stores the owner in lower case. When the ledger reports the same address in mixed case, the sync counts a transfer that never happened. `FileRoutes.SyncCountsCaseChangeAsTransfer` states this.

## Model

| member | source | states |
|---|---|---|
| Workflow.CountsBounded | backend/routes/files.js:16-23 | along any list of distinct roles, the approve and reject counts together never exceed the list's length |
| Workflow.CountInIsCard | backend/routes/files.js:16-23 | counting a decision along distinct roles gives the size of the set of roles holding that decision |
| Workflow.ComputeDecisionStats | backend/routes/files.js:16-23 | the approve and reject counts are the sizes of the sets of roles holding each decision, and together at most three |
| Workflow.Reconcile | backend/routes/files.js:25-49 | the result is consistent: counts match the slots; two rejects give rejected and unverified; two approvals give approved if verified, else approved_pending_chain; otherwise pending. Only the counts, status and verification fields change |
| Workflow.ReconcileWorkflowState | backend/routes/files.js:25-49 | the step-by-step reconciliation with early returns gives the reconciled record |
| Workflow.ReconcileFixpoint | backend/routes/files.js:25-49 | reconciliation leaves a record unchanged exactly when the record is already consistent |
| Workflow.ReconcileIdempotent | backend/routes/files.js:25-49 | reconciling twice equals reconciling once |
| Workflow.RejectPrecedence | backend/routes/files.js:30-36 | two rejects decide the outcome as rejected and unverified, whatever the approvals |
| Workflow.ConsistentCountsBounded | backend/routes/files.js:16-23 | a consistent record counts at most three decisions in total |
| Workflow.FreshReviewConsistent | backend/routes/files.js:425-448 | a record with empty slots, zero counts, pending and unverified is consistent |
| Workflow.NewRecordConsistent | backend/routes/upload.js:35-41 | a freshly uploaded record needs no reconciliation |
| FileSchema.RoleOrderCoversAllRoles | backend/DBmodels/fileSchema.js:53-72 | the slot order lists each of the three roles exactly once |
| FileSchema.RoleDecisions.Set | backend/DBmodels/fileSchema.js:53-72 | writing one slot changes that slot and leaves the other two alone |
| FileSchema.EmptyDecisionsAreEmpty | backend/DBmodels/fileSchema.js:53-72 | every slot of the default decisions is empty |
| FileSchema.StatusNamesDistinct | backend/DBmodels/fileSchema.js:40-44 | distinct workflow statuses are stored as distinct strings |
| FileSchema.NewRecord | backend/DBmodels/fileSchema.js:3-85 | the store refuses a record with an empty required string; otherwise every field not given takes its schema default |
| Database.FindFile | backend/routes/files.js:214-217 | the position found is the first record with that hash; none exactly when no record has it |
| Database.FindUserByWallet | backend/routes/auth.js:234-268 | the position found is the first account linked to that wallet; none exactly when no account is |
| Database.DuplicateHashesAllowed | backend/DBmodels/fileSchema.js:12-15 | two records may share a hash; lookup then finds the first |
| Database.Db.SweepExpiredCodes | backend/DBmodels/TransferCode.js:33 | the expiry index removes exactly the codes whose expiry has passed; the other collections do not change |
| TransferCodes.NormalizeCodeAgreesWithRoutes | backend/DBmodels/TransferCode.js:5-11 | the schema's upper-case-then-trim equals the routes' trim-then-upper-case, and normalising twice changes nothing |
| TransferCodes.NormalizeWalletAgreesWithRoutes | backend/DBmodels/TransferCode.js:12-17 | the schema's lower-case-then-trim equals the routes' trim-then-lower-case, and normalising twice changes nothing |
| TransferCodes.NewTransferCode | backend/DBmodels/TransferCode.js:5-29 | an empty code or wallet fails validation; otherwise the code is normalised, unused and stamped now |
| TransferCodes.MarkUsed | backend/routes/files.js:454-459 | the code becomes used with updatedAt now; value, wallet and expiry are kept |
| TransferCodes.SweepExpired | backend/DBmodels/TransferCode.js:33 | a code is kept exactly when it is stored and not yet expired, and it is kept under its own key |
| BlockchainService.LoadContractAddress | backend/services/blockchainService.js:6-15 | an unset or blank address means no ledger; a malformed one is an error; a valid one is kept in lower case |
| BlockchainService.LoadConfig | backend/services/blockchainService.js:6-15 | configuration fails exactly when loading the address fails; otherwise it carries the loaded address and the key |
| BlockchainService.SignerConfigImpliesReadConfig | backend/services/blockchainService.js:28-34 | signer configuration implies read configuration |
| BlockchainService.ReadContract | backend/services/blockchainService.js:57-69 | the read contract is refused without an address or without deployed code, and granted otherwise |
| BlockchainService.WriteContract | backend/services/blockchainService.js:40-55 | the write contract is refused without signer configuration or deployed code, and granted otherwise |
| BlockchainService.FirstSubmitted | backend/services/blockchainService.js:71-85 | the attempt chosen is the first whose submission did not fail, or the last when all failed |
| BlockchainService.FirstSubmittedOfThree | backend/services/blockchainService.js:71-85 | among three entrypoints, the chosen one is the first submitted, in entrypoint order |
| BlockchainService.StoreHashOnChain | backend/services/blockchainService.js:71-85 | the write of the given hash returns what the specification of the three-entrypoint fallback returns for that hash |
| BlockchainService.StoreHashOrder | backend/services/blockchainService.js:71-85 | a write succeeds with a hash exactly when some entrypoint was mined with it and every earlier one refused submission |
| BlockchainService.StoreHashWaitFailurePropagates | backend/services/blockchainService.js:71-85 | a receipt failure of the sent transaction is reported and not retried with a later entrypoint |
| BlockchainService.StoreHashNeedsSigner | backend/services/blockchainService.js:40-55 | no write happens without signer configuration or deployed code |
| BlockchainService.StoreHashWritesOnlyItsHash | backend/services/blockchainService.js:71-85 | the write's result depends only on what the ledger does with transactions carrying the given hash |
| BlockchainService.GetOwnerOnChain | backend/services/blockchainService.js:87-94 | errors exactly without read configuration or deployed code; otherwise the ledger's owner, or the zero address when it has none |
| BlockchainService.GetVerificationStatusOnChain | backend/services/blockchainService.js:96-103 | the flag comes from verifyProperty, else verifyHash; it fails only when both calls fail |
| FileRoutes.SyncOwner | backend/routes/files.js:61-76 | a non-zero owner that differs from the stored one is adopted; a transfer is counted only when the previous owner was real; reports whether anything changed |
| FileRoutes.SyncVerified | backend/routes/files.js:78-87 | a differing flag is adopted; the time is stamped on first verification and cleared when unverified |
| FileRoutes.SyncFileWithChain | backend/routes/files.js:51-97 | the sync returns the record and save decision that the sync specification gives for the ledger's answers |
| FileRoutes.SyncSavesIffChanged | backend/routes/files.js:89-91 | a sync saves exactly when it changed the record |
| FileRoutes.SyncKeepsReviewState | backend/routes/files.js:51-97 | a sync never touches the decisions, counts, status, chain-push fields or identity |
| FileRoutes.SyncErrorsChangeNothing | backend/routes/files.js:52-60 | without read configuration or deployed code, or when a read fails, the record is left as it is |
| FileRoutes.SyncKeepsIdentity | backend/routes/files.js:51-97 | a sync keeps the uploader and the hash |
| FileRoutes.SyncUnsavedUnchanged | backend/routes/files.js:89-94 | a sync that does not save leaves the record unchanged |
| FileRoutes.SyncFollowsLedger | backend/routes/files.js:61-87 | afterwards the record carries the ledger's flag, and the ledger's owner unless that owner is missing or zero; a transfer is counted exactly when a real owner was replaced |
| FileRoutes.SyncIdempotent | backend/routes/files.js:51-97 | a second sync against the same ledger finds nothing to change |
| FileRoutes.SyncCountsCaseChangeAsTransfer | backend/routes/files.js:69-76 | a mixed-case form of the stored lower-case owner is adopted and counted as a transfer |
| FileRoutes.ListFiles | backend/routes/files.js:101-136 | non-reviewers get 403 and nothing changes; reviewers get every record synced and reconciled, and the store holds what the listing specification says |
| FileRoutes.ReconcileStored | backend/routes/files.js:109-130 | every record is shown and stored as the listing step gives it |
| FileRoutes.ListOne | backend/routes/files.js:110-129 | the record shown is synced and reconciled; the record written is the listing step's, and nothing is written when the step stores the record unchanged |
| FileRoutes.ListedRecordsConsistent | backend/routes/files.js:109-130 | every record in the reviewers' listing is consistent |
| FileRoutes.ListShowsWhatItStores | backend/routes/files.js:118-125 | shown and stored records differ at most in verification time and verifier; a consistent record the sync leaves alone is shown and stored unchanged |
| FileRoutes.NonEmpty | backend/routes/files.js:144-147 | keeps exactly the non-empty strings, in order |
| FileRoutes.CitizenIds | backend/routes/files.js:144-164 | the identifiers are exactly the non-empty path id, extra ids and e-mail, plus the display name when no other account shares it |
| FileRoutes.FilterOwned | backend/routes/files.js:172-177 | keeps exactly the records owned by id or wallet, in order |
| FileRoutes.SyncAll | backend/routes/files.js:169-170 | every record is replaced by its synced form, in place |
| FileRoutes.CitizenFiles | backend/routes/files.js:140-184 | non-citizens get 403 and nothing changes; citizens get their synced records, and every record is stored synced |
| FileRoutes.SyncStored | backend/routes/files.js:169-170 | the store holds every record in its synced form; codes and accounts are unchanged |
| FileRoutes.CitizenSeesOwnUploads | backend/routes/files.js:156-177 | a citizen always sees the records uploaded under the path id |
| FileRoutes.CitizenSeesOwnedByWallet | backend/routes/files.js:148-177 | with a wallet, a citizen sees every record whose synced owner is that wallet, case-insensitively, and nothing that is neither theirs by id nor by wallet |
| ReviewRoutes.ParseReviewer | backend/routes/files.js:192-199 | accepts exactly the four roles, case-insensitively, mapping localauthority to its slot |
| ReviewRoutes.ParseDecision | backend/routes/files.js:205-208 | accepts exactly approve and reject, case-insensitively |
| ReviewRoutes.RecordDecision | backend/routes/files.js:234-242 | a slot role's decision fills its own slot only; a citizen's changes nothing |
| ReviewRoutes.ValidateReview | backend/routes/files.js:192-212 | checks in order: role, then hash, then decision, then a non-blank reason for a reject; a valid review carries the parsed role and decision and the trimmed reason |
| ReviewRoutes.Review | backend/routes/files.js:190-281 | the response and the stored records are those of the review specification |
| ReviewRoutes.ReviewErrorOrder | backend/routes/files.js:192-223 | request checks fail before the lookup, and the lookup before the record is read; none of these failures writes |
| ReviewRoutes.ReviewFinalIsImmutable | backend/routes/files.js:219-223 | a record whose reconciled status is final is refused and not written |
| ReviewRoutes.ReviewAlreadyReviewedKeepsDecision | backend/routes/files.js:225-232 | a role that already decided gets its stored decision back, and the decisions are not changed |
| ReviewRoutes.ReviewRecordsDecision | backend/routes/files.js:234-242 | a slot role's first decision fills its slot with reason, wallet and time, and leaves the others alone |
| ReviewRoutes.ReviewOutcomeFollowsCounts | backend/routes/files.js:244-276 | whatever a review writes is consistent, and the outcome follows the new counts |
| ReviewRoutes.SecondApprovalAwaitsChainPush | backend/routes/files.js:244-266 | a second approval with at most one reject moves the record to approved_pending_chain |
| ReviewRoutes.CitizenReviewRecordsNothing | backend/routes/files.js:192-199 | a citizen passes the role check but stores no decision |
| ReviewRoutes.PushGate | backend/routes/files.js:287-309 | each refusal by its condition, in order: a role outside the four is 403, no hash 400, no record with the trimmed hash 404, fewer than two stored approvals 400; passing yields the first record with the trimmed hash, which holds two approvals |
| ReviewRoutes.RetryChainPush | backend/routes/files.js:285-335 | the response and the stored records are those of the retry specification |
| ReviewRoutes.RetryChecksBeforeWrite | backend/routes/files.js:287-316 | each refusal of the retry by its condition on the role, the hash, the found record and its approvals, then missing signer (503) and a failed write of the record's hash (500); no refusal saves anything |
| ReviewRoutes.RetrySuccess | backend/routes/files.js:318-327 | success wrote the found record's own hash and stores that record approved, verified by multi-role at now, with the returned transaction hash; consistency is kept |
| ReviewRoutes.ConfirmChainPush | backend/routes/files.js:339-379 | the response and the stored records are those of the confirmation specification |
| ReviewRoutes.ConfirmOnlyAfterQuorum | backend/routes/files.js:341-371 | confirmation needs two stored approvals; it never finalises a pending or rejected consistent record; without a new hash the stored one is kept |
| OwnerTransfer.CheckCode | backend/routes/files.js:399-413 | an unknown code is 404; a used code is refused before an expired one; a code bound to another wallet is refused; otherwise it passes |
| OwnerTransfer.CheckLedgerOwner | backend/routes/files.js:415-423 | passes exactly when the ledger answers with a real owner that, trimmed and lower-cased, is the requested owner |
| OwnerTransfer.Authorize | backend/routes/files.js:388-423 | checks in order: citizen role, required fields, code, ledger owner; approval carries the trimmed hash, owner and code |
| OwnerTransfer.Commit | backend/routes/files.js:425-459 | the ownership update happens exactly when a record has the hash; otherwise 404 and nothing is written |
| OwnerTransfer.AuthorizeTransfer | backend/routes/files.js:388-423 | the route's checks return the authorisation result |
| OwnerTransfer.CommitTransfer | backend/routes/files.js:425-466 | the store afterwards holds the committed records and codes |
| OwnerTransfer.TransferOwner | backend/routes/files.js:383-466 | the response and the stored records and codes are those of the transfer specification |
| OwnerTransfer.TransferFailureWritesNothing | backend/routes/files.js:383-466 | no record or code is written unless the owner was updated |
| OwnerTransfer.UsedReportedBeforeExpired | backend/routes/files.js:404-409 | a code that is both used and expired is reported as used |
| OwnerTransfer.TransferFollowsLedger | backend/routes/files.js:415-423 | a successful transfer happened only because the ledger named the requested owner |
| OwnerTransfer.TransferResetsEpoch | backend/routes/files.js:425-459 | success rewrites only the first record with the hash: new owner, one more transfer, fresh consistent review; only the given code is marked used |
| OwnerTransfer.TransferCodeSingleUse | backend/routes/files.js:404-459 | a second request with the same code is refused as used |
| TransferRoutes.CreateTransferCode | backend/routes/transfer.js:117-119 | the code is eight upper-case hexadecimal characters |
| TransferRoutes.CreateTransferCodeInjective | backend/routes/transfer.js:117-119 | distinct draws give distinct codes |
| TransferRoutes.CreatedCodeIsNormal | backend/routes/transfer.js:117-119 | a drawn code is unchanged by the schema's normalisation |
| TransferRoutes.Attempts | backend/routes/transfer.js:135-152 | the attempts end with a created code, exhaustion or another failure, and write nothing unless a code was created |
| TransferRoutes.InsertFirstFree | backend/routes/transfer.js:135-152 | the loop's outcome and stored codes are those of the attempts specification |
| TransferRoutes.GenerateCode | backend/routes/transfer.js:123-163 | the response and the stored codes are those of the issuing specification |
| TransferRoutes.DrawnDocument | backend/routes/transfer.js:135-148 | for a normalised wallet, every draw validates as an unused code stamped now |
| TransferRoutes.AttemptsCreateFreshCode | backend/routes/transfer.js:135-159 | a created code was not stored before, is well formed, bound to the wallet and unused; it is the only change |
| TransferRoutes.AttemptsExhaustedOnlyOnCollisions | backend/routes/transfer.js:135-152 | the attempts give up exactly when every draw collides and no other failure occurs |
| TransferRoutes.GenerateChecksWalletFirst | backend/routes/transfer.js:125-131 | a missing wallet, then a malformed one, is refused with nothing written |
| TransferRoutes.GenerateIssuesFreshCode | backend/routes/transfer.js:123-163 | an issued code is fresh, unused, bound to the normalised wallet and valid for ten minutes; the store stays keyed by code |
| TransferRoutes.GenerateExhaustedOnlyOnCollisions | backend/routes/transfer.js:150-152 | with a valid wallet the route answers 500 exactly when all five draws collide |
| TransferRoutes.ViewUser | backend/routes/transfer.js:184-204 | a shown Aadhaar number is twelve characters, the first eight X |
| TransferRoutes.ResolveChecks | backend/routes/transfer.js:166-182 | a code resolves exactly when it exists, is unused and has not expired; used is reported before expired |
| TransferRoutes.ResolveShowsLinkedAccount | backend/routes/transfer.js:184-204 | the account shown is the first linked to the code's wallet, masked; none exactly when no account is linked |
| TransferRoutes.ResolvedCodeRedeemable | backend/routes/transfer.js:166-208 | a code that resolves passes the ownership transfer's code checks for its own wallet at the same moment |
| TransferRoutes.IndexedLookup | backend/routes/transfer.js:38-57 | for a positive indexed id, the row getProperty reads, else the row properties reads, else nothing; nothing without a positive id |
| TransferRoutes.ScanFindsHighest | backend/routes/transfer.js:59-75 | the scan reports the highest matching id, and every higher row was readable and did not match |
| TransferRoutes.ScanMissesOnlyWithoutMatch | backend/routes/transfer.js:59-75 | the scan misses exactly when every row is readable and none matches |
| TransferRoutes.LegacyLookup | backend/routes/transfer.js:77-108 | none exactly when the legacy owner is zero; otherwise id 0 with the owner and the registered status exactly when verified |
| TransferRoutes.ScanByHash | backend/routes/transfer.js:59-75 | the descending loop returns the scan's result |
| TransferRoutes.LegacyByHash | backend/routes/transfer.js:77-108 | the legacy reads, with their fall-backs, return the legacy result |
| TransferRoutes.GetPropertyFromChainByHash | backend/routes/transfer.js:31-109 | the lookup returns what its specification gives: configuration and blank-hash errors, then index, scan and legacy in that order |
| TransferRoutes.LookupPrefersIndex | backend/routes/transfer.js:38-57 | an index hit with a readable row is the answer, whatever the scan or legacy path would say |
| TransferRoutes.LookupFallsBackToLegacy | backend/routes/transfer.js:77-108 | with no index or scan match the answer is the legacy one: none for a zero owner, otherwise id 0 and registered exactly when verified |
| TransferRoutes.ValidateAllowsOnlyOwner | backend/routes/transfer.js:212-250 | the seller may proceed exactly when hash and valid wallet are given, the property is registered and the wallet owns it, up to letter case |
| VerifyRoute.Refresh | backend/routes/verify.js:16-35 | a real owner replaces the stored one; the flag is copied; a verified record keeps or gets its time, an unverified one loses it |
| VerifyRoute.VerifyPost | backend/routes/verify.js:10-49 | the response and the stored records are those of the verification specification |
| VerifyRoute.VerifyTouchesOnlyLedgerFields | backend/routes/verify.js:13-35 | at most the first record with the hash changes, and only in owner, flag and time; an unknown hash writes nothing |
| VerifyRoute.VerifyFollowsLedger | backend/routes/verify.js:16-35 | a refreshed owner is the ledger's real owner; the flag is the ledger's, with a time exactly when verified |
| VerifyRoute.VerifyFallsBackToStore | backend/routes/verify.js:16-48 | without configuration, or when a read fails, the stored record is reported unchanged |
| PropertyRoute.Details | backend/routes/property.js:33-42 | the wallet is always shown; with no linked account everything else is null; otherwise the account's role and at most a masked Aadhaar |
| PropertyRoute.PropertyOwnerShowsLedgerOwner | backend/routes/property.js:16-46 | reviewers only; a blank hash is refused; a found owner is the ledger's, lower-cased and real, with the first account linked to it |
| PropertyRoute.PropertyOwnerLedgerFailures | backend/routes/property.js:23-31 | an unreachable or unconfigured ledger gives 500, and a hash without owner is not found |
| UserSchema.ParseAccountRole | backend/DBmodels/User.js:26-30 | accepts exactly the four role names, case-sensitively |
| UserSchema.ParseAccountRoleRoundTrip | backend/DBmodels/User.js:26-30 | every role's stored name parses back to that role |
| UserSchema.MaskAadhaar | backend/routes/auth.js:9-13 | none unless the value has exactly twelve digits; otherwise eight X then the last four digits |
| UserSchema.MaskShowsLastFour | backend/routes/auth.js:9-13 | on Aadhaar numbers the masks agree exactly when the last four digits do |
| UserSchema.PreValidateRule | backend/DBmodels/User.js:48-68 | a citizen needs a 12-digit Aadhaar and loses the employee ID; a reviewer needs an employee ID and loses the Aadhaar; other roles pass unchanged |
| UserSchema.WalletField | backend/DBmodels/User.js:31-37 | a stored wallet is in its lower-cased, trimmed form |
| UserSchema.UserDocument.constructor | backend/DBmodels/User.js:3-46 | every field passes through its schema setters |
| UserSchema.UserDocument.PreValidate | backend/DBmodels/User.js:48-68 | refuses exactly what the pre-validate rule refuses, and otherwise stores its identifiers |
| UserSchema.UserDocument.Validate | backend/DBmodels/User.js:3-68 | success exactly when pre-validation passes, the name is non-blank, a password is given and the role is in the enum; the account returned is well formed |
| AuthRoutes.HashPassword | backend/routes/auth.js:15-18 | the stored value contains a colon, so it is never taken for a legacy plain-text password |
| Text.BufferFromHex | backend/routes/auth.js:30-31 | reads at most one byte per two characters |
| Text.BufferFromHexLower | backend/routes/auth.js:30-31 | reading back the hex of some bytes gives those bytes |
| AuthRoutes.PlaintextFallback | backend/routes/auth.js:24-27 | a stored value without a colon is compared as plain text |
| AuthRoutes.HashedPasswordVerifies | backend/routes/auth.js:15-33 | a freshly hashed password accepts exactly the attempts whose derived key under that salt is the same |
| AuthRoutes.SafeView | backend/routes/auth.js:88-96 | shows the Aadhaar only for a citizen and the employee ID only for a reviewer |
| AuthRoutes.ValidateSignup | backend/routes/auth.js:40-82 | each 400 refusal by its condition, in order: fields missing, unknown role, no wallet, invalid wallet, bad Aadhaar number for a citizen, no employee ID otherwise; a draft that passes is well formed and carries the request's fields |
| AuthRoutes.Account | backend/routes/auth.js:56-84 | the account carries the draft's fields and the hashed password; it is well formed exactly when the trimmed name is non-empty |
| AuthRoutes.CommitSignup | backend/routes/auth.js:84-106 | a taken identifier gives 409; a blank name fails; a held unique key gives 409; otherwise exactly the new account is appended; any refusal writes nothing |
| AuthRoutes.Signup | backend/routes/auth.js:36-107 | the response and the stored accounts are those of the sign-up specification |
| AuthRoutes.SignupRefusals | backend/routes/auth.js:36-107 | a sign-up gives its validation error, then 409 for a taken identifier, 500 for a blank name, 409 for another held key; only a sign-up that passes all adds one account, at the end |
| AuthRoutes.LoginQuery | backend/routes/auth.js:113-133 | each 400 refusal by its condition, in order: role or password missing, unknown role, no valid Aadhaar number for a citizen, no employee ID otherwise; yields the role and the lookup key |
| AuthRoutes.FindAccount | backend/routes/auth.js:135 | the position found is the first account the query matches; none exactly when none does |
| AuthRoutes.Login | backend/routes/auth.js:110-162 | the response and the stored accounts are those of the log-in specification |
| AuthRoutes.LoginCredentialFailuresAlike | backend/routes/auth.js:135-139 | an unknown account and a wrong password give the same 401 |
| AuthRoutes.LoginMigratesPlaintext | backend/routes/auth.js:141-145 | a log-in changes at most the found account's password; a plain-text one becomes a hash that the same password passes |
| AuthRoutes.LoginSucceeds | backend/routes/auth.js:135-162 | an account found by the query whose hashed password matches logs in |
| AuthRoutes.SignupFieldsLogIn | backend/routes/auth.js:113-133 | logging in with the fields a sign-up accepted runs the query for that account |
| AuthRoutes.FreshAccountFound | backend/routes/auth.js:135 | an account added with a free identifier is the first the query finds |
| AuthRoutes.SignupThenLogin | backend/routes/auth.js:36-162 | an account just signed up logs in with the same role, identifier and password |
| AuthRoutes.FindUserById | backend/routes/auth.js:180-188 | the position found holds that id; none exactly when no account does |
| AuthRoutes.SaveWallet | backend/routes/auth.js:165-207 | the response and the stored accounts are those of the wallet-linking specification |
| AuthRoutes.SaveWalletRefusals | backend/routes/auth.js:165-207 | each refusal by its condition, in order: no id 400, no wallet 400, invalid address 400, unknown id 404, wallet linked to another account 409, none changing any account; success links the wallet to the found account alone |
| AuthRoutes.UserByWalletShowsMaskedAccount | backend/routes/auth.js:234-268 | reviewers only; a malformed wallet is refused; the linked account is shown with a masked Aadhaar |
| AuthRoutes.SavedWalletIsFound | backend/routes/auth.js:165-268 | a linked wallet, searched in any case and with any surrounding space, finds its account; indexes stay unique |
| Text.SplitJoin | backend/routes/files.js:144-147 | splitting undoes joining pieces that do not contain the separator |
| Text.Dedup | backend/routes/files.js:156-164 | removes repeats, keeping every value and only those values, the first one first |
| Text.DedupKeepsFirstOccurrenceOrder | frontend/src/pages/CitizenDashboard.js:31-36 | the kept values appear in the order of their first occurrences in the input |
| Text.HexUpperRoundTrip | backend/routes/transfer.js:117-119 | reading an upper-cased hex encoding back as a buffer gives the encoded bytes |
| Text.UpperTrimCommute | backend/DBmodels/TransferCode.js:5-11 | upper-casing and trimming commute |
| PropertyActions.IndexedProperty | frontend/src/contract/propertyActions.js:53-75 | answers exactly when the index gives a positive id whose row reads through getProperty or properties; the id is positive |
| PropertyActions.ScanMatchesExactly | frontend/src/contract/propertyActions.js:84-103 | the scan keeps exactly the readable rows whose trimmed hash matches |
| PropertyActions.FindEVaultPropertiesByHash | frontend/src/contract/propertyActions.js:32-104 | the matches returned are those of the lookup specification |
| PropertyActions.FindPropertiesCases | frontend/src/contract/propertyActions.js:32-104 | a blank hash, or an index miss with no counter, finds nothing; an index hit is the only answer; otherwise every scan entry carries the hash |
| PropertyActions.OwnedBy | frontend/src/contract/propertyActions.js:106-125 | keeps exactly the entries whose owner, lower-cased, is the given one |
| PropertyActions.RegisteredOnly | frontend/src/contract/propertyActions.js:106-125 | keeps exactly the entries with status 2 |
| PropertyActions.Latest | frontend/src/contract/propertyActions.js:106-125 | the result is an entry with the highest id, the first such |
| PropertyActions.SelectionPreference | frontend/src/contract/propertyActions.js:106-125 | prefers the preferred owner's latest entry, then the latest registered one, then the latest |
| PropertyActions.PropertyStateFallback | frontend/src/contract/propertyActions.js:127-168 | with matches the state is the chosen one; without, the legacy read, which fails exactly when no real owner is known |
| PropertyActions.RegisterGuards | frontend/src/contract/propertyActions.js:170-205 | a registrar's wallet never registers; a verified hash is reported registered; storeHash only after a missing registerProperty |
| PropertyActions.PushRegistration | frontend/src/contract/propertyActions.js:221-249 | with some mined attempt the hash is that of the first mined one; with none it is empty and the last error is the last attempt's |
| PropertyActions.Register | frontend/src/contract/propertyActions.js:221-249 | the loop returns the registration specification's result |
| PropertyActions.TransferToOwner | frontend/src/contract/propertyActions.js:251-319 | the hand-over returns the transfer specification's result |
| PropertyActions.TransferGoesToOwner | frontend/src/contract/propertyActions.js:251-304 | a successful hand-over was mined from a transfer to the intended owner, of this hash or of a non-zero id the ledger gives for it |
| PropertyActions.TransferFailureReportsLastError | frontend/src/contract/propertyActions.js:278-318 | a failed hand-over reports the hash transfer's error, or the fresh id transfer's when one was sent |
| PropertyActions.PushHashOnChainWithWallet | frontend/src/contract/propertyActions.js:207-322 | the push returns the push specification's result |
| PropertyActions.PushOrderAndHandOver | frontend/src/contract/propertyActions.js:215-248 | a blank hash is refused, and only a blank one; registration sends the trimmed hash and uses the first mined entrypoint in order; when none is mined the push fails with the storeHash attempt's error |
| PropertyActions.PushHandsOverOnlyToOtherOwner | frontend/src/contract/propertyActions.js:250-321 | a hand-over is attempted only to an intended owner that is an address other than the signer's; otherwise the transfer hash is empty |
| PropertyActions.VerifyPropertyOnChain | frontend/src/contract/propertyActions.js:339-350 | verifyProperty's answer when it answers, else verifyHash's answer, else false |
| PropertyActions.PropertyExistsOnChain | frontend/src/contract/propertyActions.js:352-364 | verifyHash's answer when it answers; unknown exactly when both verifyHash and getOwner fail; from getOwner alone, true exactly for a non-zero owner |
| FrontendUtils.GetStoredRole | frontend/src/utils/auth.js:1-6 | a stored value is returned exactly when it is one of the four roles |
| FrontendUtils.GetHomePathForRole | frontend/src/utils/auth.js:8-14 | the path is one of the four role pages or the login page |
| FrontendUtils.HomePathSeparatesRoles | frontend/src/utils/auth.js:1-14 | the home page is other than login exactly for a valid stored role, and distinct roles have distinct pages |
| FrontendUtils.HomePathIsCaseSensitive | frontend/src/utils/auth.js:8-14 | the lower-case localauthority the routes accept leads to login |
| FrontendUtils.StatusLabel | frontend/src/utils/evault.js:4-10 | 0, 1 and 2 are Pending, Rejected and Registered; anything else is Unknown |
| FrontendUtils.FetchRange | frontend/src/utils/evault.js:64-65 | succeeds exactly when every id from 1 to n reads, giving the rows in id order |
| FrontendUtils.RealRows | frontend/src/utils/evault.js:66 | keeps exactly the rows with a positive id |
| FrontendUtils.AllPropertiesListsLedger | frontend/src/utils/evault.js:61-67 | the list exists exactly when the counter and every id read; it holds exactly the real rows stored under ids 1 to the counter |
| FrontendUtils.OwnershipHistory | frontend/src/utils/evault.js:69-80 | one entry per record, in order, with the same owner and time; the readable time is "-" for a non-positive time |
| RegistrarDashboard.Abbreviate | frontend/src/pages/RegistrarDashboard.js:25-37 | blank gives "-"; a value up to the limit is kept; a longer one is its head, "...", and its tail |
| RegistrarDashboard.AbbreviateIdempotent | frontend/src/pages/RegistrarDashboard.js:25-37 | abbreviating an abbreviation changes nothing |
| RegistrarDashboard.MasksIdempotent | frontend/src/pages/RegistrarDashboard.js:25-37 | both masks are idempotent |
| RegistrarDashboard.ReviewerRoleAgreesWithRoutes | frontend/src/pages/RegistrarDashboard.js:48-50 | the page treats a role as a reviewer exactly when the listing and review routes do |
| RegistrarDashboard.SlotForKey | frontend/src/pages/RegistrarDashboard.js:558-564 | exactly the three slot keys name a slot, and each names its own |
| RegistrarDashboard.ReviewButtonsMatchRoutes | frontend/src/pages/RegistrarDashboard.js:558-564 | on a consistent record the buttons are disabled exactly when the record is final, is being processed, or the role already decided |
| RegistrarDashboard.RejectReason | frontend/src/pages/RegistrarDashboard.js:211-218 | a reason is sent exactly when a non-blank one was typed, trimmed |
| RegistrarDashboard.RejectReasonAccepted | frontend/src/pages/RegistrarDashboard.js:163-218 | a reject with the reason the page sends passes the review route's checks with that reason |
| RegistrarDashboard.TransferHistoryCount | frontend/src/pages/RegistrarDashboard.js:128-134 | at most the history's length; equal exactly when all entries are transfers; zero exactly when none is |
| RegistrarDashboard.TransferHistoryCountAppend | frontend/src/pages/RegistrarDashboard.js:128-134 | the count over two histories joined is the sum of their counts |
| RegistrarDashboard.MintIsNotTransfer | frontend/src/pages/RegistrarDashboard.js:12 | an entry from the zero address is not a transfer |
| RegistrarDashboard.RowFor | frontend/src/pages/RegistrarDashboard.js:257-266 | a row exists exactly when the slot holds a decision and a time, and carries that slot's contents |
| RegistrarDashboard.DecidedRows | frontend/src/pages/RegistrarDashboard.js:257-266 | exactly the rows of the roles that decided, in slot order |
| RegistrarDashboard.InsertByTime | frontend/src/pages/RegistrarDashboard.js:257-266 | inserting keeps the rows in time order; the result is the input plus the inserted row |
| RegistrarDashboard.SortByTime | frontend/src/pages/RegistrarDashboard.js:257-266 | the sorted rows are in time order and a permutation of the input |
| RegistrarDashboard.DecisionTimelineOrdered | frontend/src/pages/RegistrarDashboard.js:257-266 | the timeline is in time order, holds a row for a role exactly when it decided, with that slot's contents, and at most three rows |
| CitizenDashboard.GetUserIdentifiers | frontend/src/pages/CitizenDashboard.js:31-36 | holds exactly the truthy inputs, without repeats, in the order e-mail, id, _id; the first is the first truthy one of the three |
| CitizenDashboard.FirstPresentCandidate | frontend/src/pages/CitizenDashboard.js:31-36 | dropping empty candidates leaves the first non-empty one of e-mail, id, _id at the front |
| CitizenDashboard.IdentifiersReachRoute | frontend/src/pages/CitizenDashboard.js:79-88 | the query runs as a citizen, and every identifier sent reaches the route's identifier list |
| CitizenDashboard.RejectionFor | frontend/src/pages/CitizenDashboard.js:38-47 | a row exists exactly when the slot holds a reject, with its reason |
| CitizenDashboard.GetRejectionReasons | frontend/src/pages/CitizenDashboard.js:38-47 | one row for each rejecting role with a non-blank reason, and only those, in slot order |
| CitizenDashboard.RecordedRejectionShown | frontend/src/pages/CitizenDashboard.js:38-47 | after the review route records a reject, that role's row shows its reason, and the other roles' rows are unchanged |
| CitizenDashboard.ValidatedReasonIsTrimmed | frontend/src/pages/CitizenDashboard.js:38-47 | a validated reject reason is non-blank and trimmed |
| CitizenDashboard.StatusText | frontend/src/pages/CitizenDashboard.js:539-545 | Rejected and "Approved (Pending Chain Push)" exactly for those statuses; Verified exactly when otherwise approved, verified, or verified on the ledger; otherwise "Pending / Unverified" |
| CitizenDashboard.StatusTextFollowsVerified | frontend/src/pages/CitizenDashboard.js:539-545 | on a consistent record, the text is Verified exactly when the record is verified |
| CitizenDashboard.PushGuard | frontend/src/pages/CitizenDashboard.js:361-370 | the push is allowed exactly when the hash is non-blank, a wallet is connected and two approvals are stored; a blank hash is reported first; the hash is trimmed |
| CitizenDashboard.PushButtonAwaitsLedger | frontend/src/pages/CitizenDashboard.js:558-559 | on a consistent record the push button shows exactly when the record awaits the chain push |
| CitizenDashboard.PushButtonReachesConfirm | frontend/src/pages/CitizenDashboard.js:360-386 | pressing a shown push button with a wallet passes the page's guard and the confirmation route's gate |
| CitizenDashboard.ResolveCode | frontend/src/pages/CitizenDashboard.js:216-262 | a blank code asks for a code; the buyer resolves exactly when the code is non-blank, the route answered with a wallet, and that wallet, lower-cased, is not the connected one |
| CitizenDashboard.CheckTransfer | frontend/src/pages/CitizenDashboard.js:264-278 | a blank code is refused; the transfer goes ahead exactly when the typed code is the resolved one, to the resolved wallet trimmed and lower-cased |
| CitizenDashboard.ResolveThenTransfer | frontend/src/pages/CitizenDashboard.js:216-278 | transferring with the code just resolved goes to that code's buyer, never to the connected wallet; another code needs a new resolve |

## Left out

- HTTP plumbing is not modelled: request parsing, JSON bodies, middleware and logging. Each route takes its body fields as `Option<string>` parameters. The caller's role is a request field, as in the source.
- Store errors other than duplicate keys and validation are not modelled. Atomicity across several documents is not modelled either. A save either happens or does not.
- `Promise.all` concurrency in the listings is modelled as a sequential pass over the records.
- The listings' sort by `uploadedAt` is not modelled. The model keeps the store's order.
- The ledger library's mixed-case checksum form of an address is not computed. Its `isAddress` is modelled only for "0x" followed by 40 hex digits. The form without a prefix is not accepted.
- Case mapping covers ASCII letters only.
- `UserSchema.MaskAadhaar`: removing non-digits covers ASCII digits only.
- PBKDF2, `crypto.randomBytes` and `timingSafeEqual` are not modelled. The key derivation is a function parameter and the random bytes are sequence parameters. Timing is not modelled.
- `Text.BufferFromHex`: decoding stops at the first pair that is not hexadecimal. An odd trailing digit is dropped.
- The registrars listing route (backend/routes/auth.js:211-230) is not modelled. It is a plain query with no logic.
- `POST /api/verify` with no hash in the body is not modelled. The route is modelled for a given hash.
- Locale time formatting is a function parameter.
- React state, effects, rendering and async label loading are not modelled. The wallet connection and MetaMask prompts are not modelled either. The dashboards are modelled through the decisions they compute.
- The other functions of frontend/src/contract/propertyActions.js are not part of this model:
  - approval;
  - `getPropertyOwnerOnChain`;
  - `transferPropertyOnChain`;
  - the history reads;
  - the admin and registrar functions.
- `PropertyActions.PushHashOnChainWithWallet` does not derive the ledger state after registration. That state is passed in as a parameter (`after`).
- `formatDateTime`, the timeline's labels and the rendering of the chain history are not modelled.
- The citizen dashboard's fallback to `/api/upload/all` is not modelled.
- `PropertyActions.PropertyExistsOnChain`: when `getOwner` returns an empty owner, the source returns that empty string, which callers read as false. The model returns `Some(false)`.
- `FrontendUtils.AllPropertiesListsLedger`: a read that fails inside `Promise.all` is modelled as no list at all. The rejection's error value is not modelled.
- The upload route, IPFS and the demo and deploy scripts are not part of this model. Only the record the upload route builds is modelled, as `FileSchema.NewRecord`.

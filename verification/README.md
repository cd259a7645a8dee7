# Player-journey ledger: a model and its proofs

A Dafny model of the service in `rust/src`: the hash-chained ledger, the in-memory index it
feeds, the per-player logs and claim sets on disk, the review of achievement claims, and the two
structures underneath, packed bit vectors and the sled store.  `dafny verify dfyconfig.toml`
checks everything.

## How it is laid out

| files | what they hold |
|---|---|
| `Common`, `Text`, `Order` | results and options, strings cut at separators, decimal numerals, lexicographic order |
| `BitWords`, `Generator`, `KnownAnswers`, `BitVectors` | 64-bit words as numbers, splitmix64 / xoshiro256+ / FNV-1a and published answers of the last two, vectors packed in lanes |
| `Registry` | string-keyed definition registries against a map of four names |
| `Blockchain`, `HashInput`, `HashWitness`, `LogVerifier` | mining, chain validity, tamper evidence, the hashed text, a hash that meets the assumptions, the replay verifier |
| `Journal`, `Claims` | every service operation as a function on values, with its error paths |
| `Effects`, `ClaimEffects` | what each operation changes and answers, in plain fields, without the functions of `Journal` and `Claims` |
| `FileStorage`, `Service`, `SledStorage` | the classes of the source: fields updated in place, loops, each method proved equal to its function in `Journal` or `Claims` |
| `Runs`, `LedgerInvariant`, `Filing` | runs of operations, storage failures and restarts, what every step keeps when reads succeed, and what it keeps whatever block reads fail |
| `Recovery`, `ReplayOrder`, `MemoryIndex` | what restarts recover and lose, when listing order matters, and that memory indexes the ledger whatever could be read |
| `ClaimLifecycle`, `AwardOnce`, `ConcurrentReview`, `Conservation` | claims over runs, at most one award per claim, interleaved reviews, conservation of awards |
| `Requests`, `ClaimHistory`, `SettledClaims`, `ReviewHandler` | runs against what was asked for: profiles, rewards and claims follow from the requests, reviewed claims are settled, and an uninterrupted review is one review |
| `Scenarios`, `ClaimSurvival` | concrete runs, when a saved promotion survives, and what a restart that could not read a claim set leads to |

A run is any sequence of operations and restarts.  Every operation carries what storage answered:
an append is `Appended`, `Dropped` (an error before the block was written, the log file created or
not) or `WrittenThenFailed` (an error after the block reached the log, as when mirroring fails), and a
claim save replaces the whole set or leaves it.  A crash in the middle of an operation is that operation
with a storage error at the point of the crash, followed by a restart.  A restart carries which of its
reads failed.  Transactions that a promotion causes are tracked by their fresh id.

## What the proofs assume

Each of these is a parameter type or a `requires` of the theorems that need it.

- The block hash is any function of (previous hash, transactions, timestamp, version, nonce) for which
  some `u64` nonce gives a hash starting with "00"; otherwise the mining loop never ends.
- `Binding`: equal hashes mean equal previous hash, transactions and timestamp, at whatever versions, and
  no hash is "0".  The operations of a run may each be served by another version.  `HashInput` derives
  it from a collision-free text hash and a self-delimiting JSON writer, and says exactly which fields
  the undelimited text determines.  Only the tamper-evidence results that compare whole blocks speak of
  one version (`CollisionFree`).  `HashWitness` gives one hash that meets all of this.
- Transaction ids are fresh; the clock that stamps blocks never goes back; the stamps end in `+00:00`
  and order as strings (section 5.1 of RFC 3339).  The other timestamps are unconstrained.
- Player ids that parse as UUIDs are in canonical form.  Ids that do not parse are modelled: such
  changes reach memory and the chain but no log.
- What restarts read.  Nothing need be read for: memory indexing the ledger, claim ids, reviewers,
  reviews in flight, and where awards are filed (`Reached`).  A player's awards for claims stay single as
  long as restarts list the players and read that player's claim set (`ReachedReading`), and exactly
  then (`ClaimSurvival.AwardedOnceIff`).  Recovery of the ledger needs the log of the player owning
  block 1, unless nothing of the chain is durable (`Reachable`), and exactly that
  (`LedgerInvariant.FoundIsEnoughIff`, `Scenarios.OneGenesisLinkIff`).

## Where the code does less than its documentation

- The repository's README.md says the per-player logs enable "reconstruction" of profile history.  Each log is a
  slice of one global chain but is verified from "0" on its own.  So a restart brings back a prefix of
  the chain, all of it the first player's (`Recovery.OnlyFirstPlayerComesBack`), and the whole chain
  exactly when one player owns all of it and every block was written (`Recovery.FullyRecoveredIff`).
  Two players created one after the other with no failure at all are enough to lose the second one
  (`Scenarios.SecondPlayerIsLost`).
- It also says claims persist across restart.  Restarts load the claim sets of players that have a log,
  and a save replaces the whole set; so a saved promotion survives whatever follows exactly when memory
  holds it too and its player has a log (`ClaimSurvival.SavedPromotionSurvivesIff`), and can be
  overwritten otherwise (`ClaimSurvival.UnloggedPromotionIsLost`).
- A rejected claim "cannot be promoted", but only while memory or a restart knows of the rejection: a reviewed
  claim can never be awarded again exactly when disk holds the review too and the player has a log, or the
  player's id does not parse (`SettledClaims.SettledForGoodIff`).
- The hashed text alone does not tell versions apart: exactly when it determines version and nonce is
  `HashInput.DeterminedIff`.
- A registry key `dev:game:id:vN` names one definition among all exactly when none of the three names
  holds a colon (`Registry.KeyUnambiguousIff`); nothing in the registries checks for one.

## Model

| member | source | states |
|---|---|---|
| Recovery.RestartRecoversDurablePrefix | rust/src/player_profile.rs:106-182 | In every reachable state, with any appends lost, any number of players and restarts, and the logs listed in any order, a restart recovers exactly the longest prefix of the chain whose blocks all sit in the log of the player owning block 1; every other durable block is quarantined; the sort and the hash dedup change nothing; the index is rebuilt from that prefix and nothing else |
| Recovery.FullyRecoveredIff | rust/src/player_profile.rs:106-182 | A restart brings back the whole chain if and only if one player owns all of it and every block reached that player's log |
| Recovery.OnlyFirstPlayerComesBack | rust/src/player_profile.rs:114-182 | After a restart no player but the owner of block 1 has a profile or rewards, whatever the logs hold |
| Scenarios.SecondPlayerIsLost | rust/src/player_profile.rs:114-182 | Two players created one after the other, both appends written, reach a state in which the second one's block is in its log and its profile in memory, and every restart, whatever it lists, forgets that profile and part of the chain |
| Recovery.SinglePlayerFullyRecovered | rust/src/player_profile.rs:106-182 | A single-player history whose appends all reached the log is recovered in full, chain, profiles and rewards, through any number of restarts |
| Recovery.RestartRestoresEarlierMemory | rust/src/player_profile.rs:114-165 | After any operations since the process started there is an earlier moment of that process whose chain, profiles and rewards are exactly what a restart now rebuilds |
| Recovery.RestartIsRecovered | rust/src/player_profile.rs:114-165 | Right after a restart all of the chain in memory is recoverable |
| Recovery.ChainPassesEveryLength | rust/src/blockchain.rs:95-100 | A process that reached a chain length passed every length since its start |
| Recovery.AtMostOneGenesisLink | rust/src/player_profile.rs:168-182 | Over any sequence of process lifetimes at most one durable block, in one log at one position, links to the genesis hash |
| Scenarios.OneGenesisLinkIff | rust/src/player_profile.rs:114-182 | A restart keeps that promise for every continuation if and only if it read the log of the player owning block 1, or nothing of the chain was durable |
| Scenarios.MissedLedgerForks | rust/src/player_profile.rs:114-182 | Otherwise one created profile is a second durable block linking to genesis |
| Recovery.RecoveredChainOnlyGrows | rust/src/player_profile.rs:114-182 | What a later restart would recover extends what an earlier one would have recovered |
| Recovery.LongerLogsRecoverMore | rust/src/player_profile.rs:168-182 | Recovery is monotone in the logs: appending to logs never loses a recovered block |
| MemoryIndex.MemoryIndexesLedger | rust/src/player_profile.rs:106-165 | In every state that can be reached, after failed appends and whatever restarts failed to list or read, profiles and rewards (missing rewards counting as empty) are the fold of the transactions in the ledger, and its blocks are in time order |
| Requests.LedgerTellsMemory | rust/src/player_profile.rs:114-165 | In the same states a player's entitlements and achievements are, in order and with all fields, the details of that player's transactions in the ledger, and the profile is the last one recorded there under that id |
| Requests.ProfilesFollowRequests | rust/src/player_profile.rs:184-246 | After any operations of one process, whatever storage answered, a profile has the name it was last created with and the bits its requests ask for: 16384 false bits, then each set vector, each merged vector flipping the bits where it is true |
| Requests.RewardsFollowRequests | rust/src/player_profile.rs:248-387 | After any operations of one process a player's entitlements and achievements are those from before and then, in order and with all fields, what grants, direct awards and promotions of Pending claims with a saved mark asked for; failed appends lose none |
| Requests.RequestsSurviveRestart | rust/src/player_profile.rs:106-166 | When all operations are about one player and no append lost its block, a restart brings back the name, bits, entitlements and achievements that were asked for |
| MemoryIndex.SortedFoldIsSame | rust/src/player_profile.rs:117-163 | Folding the replayed blocks player after player gives what folding them in the order of the sorted ledger gives |
| MemoryIndex.MadeHashesDistinct | rust/src/player_profile.rs:158-163 | Replayed blocks all carry different hashes, so the hash dedup drops none |
| MemoryIndex.RestartedLedgerValidIff | rust/src/player_profile.rs:157-163 | The ledger a restart rebuilds is a valid chain if and only if no two players' logs were verified from genesis, whatever was read |
| Recovery.LedgerStaysValid | rust/src/blockchain.rs:151-170 | The ledger is a valid chain in every state reached by restarts that read the log of the player owning block 1 |
| LedgerInvariant.FoundIsEnoughIff | rust/src/player_profile.rs:114-165 | A restart that fails to read some logs rebuilds exactly what one that reads everything rebuilds if and only if it read the log of the player owning block 1, or nothing of the chain is durable |
| Recovery.NextIsSound | rust/src/player_profile.rs:184-387 | Every admissible operation, whatever storage answers, and every restart keeps chain, logs, recoverable prefix and index in agreement |
| Recovery.RunIsSound | rust/src/player_profile.rs:106-387 | So does every admissible run |
| Recovery.NextRecordsAtMostOnce | rust/src/player_profile.rs:184-387 | Every operation leaves the ledger alone or records one transaction, under the fresh id and about its own player, on the chain and, if storage wrote it, at the end of that player's log only |
| Recovery.NextOnlyGrows | rust/src/blockchain.rs:95-130 | No step shortens a log; an operation keeps the chain or adds one block that links to its end, carries its own hash, and has the least nonce whose hash starts with "00" |
| Recovery.ProcessExtendsChain | rust/src/blockchain.rs:95-100 | Within one process the chain only grows at its end |
| Recovery.QuarantinedIsTheRest | rust/src/player_profile.rs:168-182 | In a log without repeated transaction ids a block is quarantined exactly when it is not verified |
| LedgerInvariant.RestartRebuilds | rust/src/player_profile.rs:114-165 | In every state of the invariant the replayed blocks are the recoverable prefix, already sorted and free of repeated hashes, and the new ledger is a new genesis block followed by them |
| LedgerInvariant.RestartKeepsBookInv | rust/src/player_profile.rs:106-166 | A restart reestablishes the whole invariant between memory and disk |
| LedgerInvariant.RecordKeepsBookInv | rust/src/player_profile.rs:549-575 | Mining a block for a transaction memory already shows keeps the invariant, whether the append is written, dropped, or written and then failed |
| Filing.NextIsFiled | rust/src/player_profile.rs:106-387 | Whatever a restart fails to read, every logged block stays in its own player's log under an id of its own, and the chain holds only ids handed out |
| Filing.RestartChainIsLogged | rust/src/player_profile.rs:114-165 | Whatever reads fail, the chain after a restart is made of logged blocks |
| LedgerInvariant.OwnerLogAfterRecord | rust/src/player_profile.rs:168-182 | A new durable block of the first player verifies on replay exactly when every block before it was durable in that log too |
| LedgerInvariant.LogAfterRecord | rust/src/player_profile.rs:168-182 | What any player's log verifies to after one more block was mined and perhaps written |
| LedgerInvariant.SortKeepsSorted | rust/src/player_profile.rs:157-157 | The replay sort leaves a sequence in time order as it is, equal timestamps included |
| ReplayOrder.ReplayIgnoresListingOrder | rust/src/player_profile.rs:106-165 | When each log holds only its own player's transactions, any two listings of the same players rebuild the same profiles, rewards and claims, also when some reads fail; and the same ledger if no verified blocks of different players share a timestamp |
| ReplayOrder.LedgerIgnoresOrderIff | rust/src/player_profile.rs:117-163 | For blocks that all carry different hashes, every listing gives the same ledger if and only if no verified blocks of different players share a timestamp |
| ReplayOrder.SortKeepsOrder | rust/src/player_profile.rs:157-157 | The replay sort is stable: any selection of the blocks that is in time order already stays in its order |
| ReplayOrder.ReplayedIndexIsUnordered | rust/src/player_profile.rs:117-150 | The index replay builds is the union of what each listed player's log leaves alone |
| ReplayOrder.ReplayedSameBlocks | rust/src/player_profile.rs:117-150 | Any order of the listing verifies the same blocks with the same multiplicities |
| ReplayOrder.SortSorts | rust/src/player_profile.rs:157-157 | The replay sort returns the same blocks in time order |
| ReplayOrder.SortedIsUnique | rust/src/player_profile.rs:157-157 | Sorted ledgers that agree, moment by moment, on the blocks of each timestamp are equal |
| ReplayOrder.DedupKeepsFirst | rust/src/player_profile.rs:158-163 | The dedup keeps, in order, exactly the blocks whose hash no earlier block carries |
| Order.TextLeIff | rust/src/player_profile.rs:157-157 | Timestamps compare as strings do: the earlier one opens the later one, or has the smaller character where they first differ |
| AwardOnce.PromotedAtMostOnce | rust/src/player_profile.rs:459-512 | Over every run mixing operations, failed appends, failed saves, crashes, and restarts that list the players and read this player's claim set, whatever else they fail to read, at most one durable block was ever caused by promoting a given claim of the player, and when there is one the claim on disk is Promoted |
| AwardOnce.AwardsAreFiled | rust/src/player_profile.rs:459-512 | Whatever was read, a durable block caused by promoting a claim is in the log of the claim's own player |
| AwardOnce.LedgerAwardsOnce | rust/src/player_profile.rs:459-512 | Under the same condition the ledger in memory never holds two awards for one claim of the player, and an awarded claim is Promoted in memory |
| AwardOnce.AwardMeansPromoted | rust/src/player_profile.rs:459-512 | A review that changes the ledger found the claim not Promoted, and leaves it Promoted both in memory and on disk: the save comes before the award |
| AwardOnce.NextIsGuarded | rust/src/player_profile.rs:389-535 | Every step, whatever a restart fails to read, keeps blocks in their players' logs, claim ids distinct, and awards with the players of their claims |
| AwardOnce.NextKeepsAwards | rust/src/player_profile.rs:389-535 | Every step that is no restart blind to a player's claims keeps each award caused by a promotion for that player backed by a Promoted claim, in memory and, if the award is durable, on disk, and keeps claims from having two |
| AwardOnce.CausedWasDurable | rust/src/player_profile.rs:114-165 | A restart, whatever it fails to read, keeps only awards that were durable in their own player's log |
| ClaimSurvival.UnreadClaimsAreAwardedAgain | rust/src/player_profile.rs:114-155 | From every state in which a claim has its durable award, a restart that could not list the players or could not read the player's claim set, and three successful operations, lead to a second durable award for the same claim |
| ClaimSurvival.AwardedTwice | rust/src/player_profile.rs:114-155 | From empty storage, two durable awards for one claim with one single restart whose listing or claim read failed |
| ClaimSurvival.AwardedOnceIff | rust/src/player_profile.rs:114-155 | Once a claim has its durable award, a restart keeps it from ever having two, over all continuations that see the player's claims, if and only if it listed the players and read that player's claim set |
| ClaimSurvival.SavedPromotionSurvivesIff | rust/src/player_profile.rs:151-155 | In every state that can be reached, a promotion saved on disk is still there after whatever follows, restarts seeing the player's claims, if and only if memory holds it too and its player has a log file |
| ClaimSurvival.SavedPromotionIsLost | rust/src/player_profile.rs:537-547 | Otherwise at most a restart that reads everything, a created profile and a submitted claim overwrite it |
| ClaimSurvival.UnloggedPromotionIsLost | rust/src/player_profile.rs:151-155 | Such states are reached: with the player's appends dropped a claim is promoted and saved, and a later reachable state has lost the saved promotion |
| ClaimSurvival.RunStaysAnchored | rust/src/player_profile.rs:389-535 | A promotion that is in memory and on disk, of a player with a log, stays in both over every run whose restarts see the player's claims |
| ClaimLifecycle.ClaimIdsStayDistinct | rust/src/player_profile.rs:389-433 | Over every run, with failed saves, restarts and failed reads, no player has two claims with one id, in memory or on disk |
| ClaimLifecycle.ClaimsOnlyAdvance | rust/src/player_profile.rs:389-535 | Within one process claims keep their places and their submitted fields, new ones come at the end, and a status moves only Pending to Promoted or to Rejected; a rejected claim may be rejected again, a promoted one never changes status |
| ClaimLifecycle.NextDesk | rust/src/player_profile.rs:389-535 | One step keeps claim ids distinct, and unless it is a restart it only advances claims |
| ClaimLifecycle.ReviewDesk | rust/src/player_profile.rs:435-535 | A review advances claims of its own player only, keeps ids distinct, and leaves on disk every promotion that was both on disk and in memory |
| ClaimLifecycle.SubmitDesk | rust/src/player_profile.rs:389-433 | A submission does the same: it adds at the end of its own player's claims, and leaves on disk every promotion that was both on disk and in memory |
| ClaimLifecycle.ReplayedClaimsAreSaved | rust/src/player_profile.rs:151-155 | After a restart a listed player whose claim set could be read holds exactly that set, anybody else nothing |
| ClaimHistory.ClaimsAreAccountedFor | rust/src/player_profile.rs:389-535 | Over every run, whatever fails and whatever restarts could not read, every claim in memory or on disk has the nine fields and the time of a submission made for its player, no review fields while Pending, and otherwise the outcome, reviewer, note, time and receipt of one review that was made of it |
| ClaimHistory.ResubmissionIsAnswered | rust/src/player_profile.rs:389-411 | Submitting a claim id again later in the process is answered with the claim first submitted under it, as it stands by then, and changes nothing |
| ClaimHistory.OperationMakes | rust/src/player_profile.rs:389-535 | One operation submits or reviews at most one claim, of its own player, and what it saves is the list it leaves in memory or differs from the list before by that one claim |
| SettledClaims.RejectionIsFinal | rust/src/player_profile.rs:460-533 | A claim that was rejected, whether the rejection could be saved or not, stays Rejected at its place in memory and no later promotion of the process awards it |
| SettledClaims.SettledForGoodIff | rust/src/player_profile.rs:106-535 | In every state that can be reached, a claim that memory holds as reviewed is never awarded again, over all continuations whose restarts see the player's claims, if and only if disk holds it as reviewed and its player has a log, or the player's id does not parse |
| SettledClaims.SettledIsAwardedAfterAll | rust/src/player_profile.rs:151-155 | Otherwise a restart that reads everything and a few operations award it |
| ConcurrentReview.ReviewersAreDevelopers | rust/src/api.rs:591-663 | Under every interleaving of snapshots, lookups, commits, submissions, direct awards, registrations and restarts, whatever reads and writes fail, whoever reviewed a claim is its developer |
| ConcurrentReview.SnapshotStaysValid | rust/src/api.rs:604-652 | Under the same interleavings a review in flight finds at commit the claim its snapshot saw, with every submitted field unchanged and its token's developer as the claim's developer |
| ConcurrentReview.AwardsAreForTheirClaims | rust/src/api.rs:619-652 | Under every interleaving in which restarts see the player's claims, if every registered definition and the claim have a colon-free developer and game, an award caused by a promotion is for exactly the developer, game, id and version the claim asks for |
| ConcurrentReview.PlainClaimsGetTheirAwards | rust/src/api.rs:619-652 | The same for a claim whose three names hold no colon, whatever was registered |
| ConcurrentReview.AwardsAreRegistered | rust/src/api.rs:623-652 | In every case the award is for a definition that was registered, under the key the claim asks for, also when registrations overwrite each other; and racing promotions of one claim produce one award |
| Scenarios.ServedPromotion | rust/src/api.rs:591-663 | Such a run exists: registration, submission, snapshot, lookup and commit end with a durable award for the claim |
| ConcurrentReview.ServingKeepsInv | rust/src/api.rs:591-663 | Every sequence of atomic pieces, whatever fails, keeps claim ids distinct, reviewers the developers, registry entries under their keys, and reviews in flight valid |
| ConcurrentReview.ServingKeepsAwards | rust/src/api.rs:642-652 | Every admissible sequence in which restarts see a player's claims keeps that player's awards backed, single, and under the keys of their claims |
| ConcurrentReview.CommitFindsSnapshot | rust/src/player_profile.rs:451-457 | With distinct ids, looking a snapshot's claim up again by id gives that claim |
| ReviewHandler.ReviewAlone | rust/src/api.rs:591-663 | A review with nothing in between reviews the first claim under its id once, with its own developer as reviewer and the definition registered under the claim's key; a foreign developer, a missing claim or a missing definition changes nothing |
| ReviewHandler.RegistrationAlone | rust/src/api.rs:665-683 | A registration with nothing in between stores its definition under its key and keeps the others, or starts from an empty registry if the file could not be read; the service and reviews in flight stay |
| ReviewHandler.RacingRegistrationIsLost | rust/src/api.rs:669-681 | Of two registrations that both load before either saves, the one that saves first is lost |
| Conservation.AwardsAreConserved | rust/src/player_profile.rs:320-387 | In every failure-free run of one process a player has as many achievements as were awarded directly plus the claims that are Promoted, and each Promoted claim names, by transaction id and block hash, an achievement transaction of that player in the ledger, a different one for every claim of every player |
| Conservation.FaultlessPromotion | rust/src/player_profile.rs:478-511 | When storage answers, promoting a Pending claim awards it once and its receipt names the new block |
| LogVerifier.VerifyPlayerBlocks | rust/src/player_profile.rs:168-182 | The loop that rechecks the whole chain for every block computes the one-pass check of each block against the current tip |
| LogVerifier.VerifiedCompositional | rust/src/player_profile.rs:168-182 | Verifying a concatenation verifies the second log on top of what the first left, for both outputs |
| LogVerifier.OutputsPartition | rust/src/player_profile.rs:168-182 | The two outputs share the log out in order: every block goes to exactly one of them |
| LogVerifier.VerifiedContinues | rust/src/player_profile.rs:168-182 | The verified blocks link one after the other from the tip, each with its own hash |
| LogVerifier.VerifiedKeepsChains | rust/src/player_profile.rs:168-182 | A log is kept whole exactly when it already is such a chain, and then nothing is quarantined |
| LogVerifier.VerifiedIdempotent | rust/src/player_profile.rs:168-182 | Verifying the verified part again changes nothing and quarantines nothing |
| LogVerifier.VerifiedIsFromLog | rust/src/player_profile.rs:168-182 | Nothing is verified that was not in the log |
| LogVerifier.ValidExtension | rust/src/blockchain.rs:151-170 | Rechecking a valid chain with one more block comes down to that block |
| LogVerifier.ValidIsContinues | rust/src/blockchain.rs:151-170 | A chain is valid exactly when what follows its first block continues the first block's hash |
| Blockchain.TipDeterminesChain | rust/src/blockchain.rs:132-170 | Two valid chains of one version with the same last hash have the same length and the same blocks after genesis |
| Blockchain.TipDeterminesRecords | rust/src/blockchain.rs:132-170 | Of any versions they have the same length and, block for block, the same hashes, links, transactions and timestamps |
| Blockchain.HashesAreDistinct | rust/src/blockchain.rs:132-170 | All block hashes in a valid chain are different, whatever versions made the blocks |
| Blockchain.OnlyGenesisIsZero | rust/src/blockchain.rs:80-89 | No block after genesis carries the hash "0" |
| Blockchain.SameHashSameBlock | rust/src/blockchain.rs:132-149 | Two blocks that carry their own hash and the same hash are the same block |
| Blockchain.NonceFrom | rust/src/blockchain.rs:103-121 | The search ends at the least nonce whose hash starts with "00", if there is one |
| Blockchain.Mined | rust/src/blockchain.rs:102-130 | A mined block links to the given hash, carries its own hash, and no smaller nonce would have won |
| Blockchain.CreateBlock | rust/src/blockchain.rs:102-130 | The mining loop terminates with that block |
| Blockchain.Blockchain.constructor | rust/src/blockchain.rs:73-89 | A new chain is a genesis block alone |
| Blockchain.Blockchain.AddBlock | rust/src/blockchain.rs:91-100 | A non-empty chain gains the block mined on its end, an empty one stays empty, and a valid chain stays valid |
| Blockchain.Blockchain.IsValidChain | rust/src/blockchain.rs:151-170 | True exactly when every block after the first links to its predecessor and carries its own hash |
| HashInput.InputDetermines | rust/src/blockchain.rs:132-149 | At any versions two texts are equal if and only if previous hash, transactions and timestamp are, and version and nonce run together are |
| HashInput.InputInjective | rust/src/blockchain.rs:132-149 | At one version the undelimited text determines all five hashed fields |
| HashInput.DeterminedIff | rust/src/blockchain.rs:132-149 | Among all version strings and `u64` nonces the text determines a preimage if and only if its nonce has one digit and its version ends in no positive number that could be read as the first digits of a nonce |
| HashInput.TrailingNumberIsLeast | rust/src/blockchain.rs:145-146 | The number a version ends in, from its last nonzero digit on, is the smallest positive numeral it ends in |
| HashInput.ConcatenatedIsCollisionFree | rust/src/blockchain.rs:132-149 | So a collision-free text hash gives collision-free block hashes at every one version |
| HashInput.ConcatenatedIsBinding | rust/src/blockchain.rs:132-149 | And across all versions block hashes that pin down everything but version and nonce |
| HashWitness.SomeHashMeetsTheAssumptions | rust/src/blockchain.rs:132-149 | One block hash, written as a text hash of the concatenated fields, is minable, collision-free at every version, and binding across versions |
| HashInput.VersionAndNonceRunTogether | rust/src/blockchain.rs:132-149 | Two releases that are hashed from the same text, whatever the hash: 0.1.1 with nonce 12 and 0.1.11 with nonce 2 |
| Service.PlayerProfileService.New | rust/src/player_profile.rs:106-166 | The constructor's loops over the listed logs and claim sets, the listing and any reads failing or not, produce the replayed book and desk |
| Service.PlayerProfileService.ReplayLog | rust/src/player_profile.rs:118-150 | Replaying one log yields its verified blocks and folds exactly those into the index |
| Service.PlayerProfileService.ReplayClaimSet | rust/src/player_profile.rs:151-155 | A claim set is adopted unless it is empty or cannot be read |
| Service.PlayerProfileService.ReplayBlock | rust/src/player_profile.rs:121-146 | The transactions of a block are folded into profiles and rewards in order |
| Service.PlayerProfileService.AdoptBlocks | rust/src/player_profile.rs:158-163 | The ledger gains the first block of every hash, in order |
| Service.PlayerProfileService.LogChange | rust/src/player_profile.rs:549-575 | One mined block for the change; an unparsable id is silently not written; a failed append leaves the chain extended |
| Service.PlayerProfileService.CreateProfile | rust/src/player_profile.rs:184-196 | Replaces the profile, keeps the rewards, and records the change; memory keeps both when the append fails |
| Service.PlayerProfileService.SetVector | rust/src/player_profile.rs:221-232 | Replaces the vector of a known profile and records it; an unknown one is NotFound and changes nothing |
| Service.PlayerProfileService.MergeVector | rust/src/player_profile.rs:234-246 | The same with the xor of old and given vector |
| Service.PlayerProfileService.AwardEntitlement | rust/src/player_profile.rs:248-318 | Rewards, then chain, then log; the receipt names the new block, and an error leaves rewards and chain changed |
| Service.PlayerProfileService.AwardAchievement | rust/src/player_profile.rs:320-387 | The same for achievements |
| Service.PlayerProfileService.PersistClaims | rust/src/player_profile.rs:537-547 | The player's set on disk becomes the one in memory or stays; an unparsable id is InvalidInput |
| Service.PlayerProfileService.SubmitAchievementClaim | rust/src/player_profile.rs:389-433 | A known claim id is answered from memory without a save; a new claim stays in memory even if its save fails; the ledger is untouched |
| Service.PlayerProfileService.ReviewAchievementClaim | rust/src/player_profile.rs:435-535 | The whole new state and answer of a review, on every error path |
| Service.PlayerProfileService.PromoteAt | rust/src/player_profile.rs:460-512 | Mark and save, then award, then record the receipt and save again, stopping at the first failure |
| Service.PlayerProfileService.RejectAt | rust/src/player_profile.rs:513-533 | A claim that is not Promoted becomes Rejected with the new review; the ledger is untouched |
| Effects.AddRecordRecords | rust/src/player_profile.rs:549-575 | One block is added, for exactly this transaction, linked, hashed and with the least nonce whose hash opens with two zeros; it ends the log of the transaction's player if the id parses and storage wrote it, and no other log changes |
| Effects.CreatedProfile | rust/src/player_profile.rs:184-196 | The profile has the given id and name and 16384 false bits, everybody's rewards stay, the recorded transaction carries that profile, and the answer is an error exactly when the append of a parsable id failed |
| Effects.VectorIsSet | rust/src/player_profile.rs:221-232 | The stored vector is the given one, id and name and all other profiles and rewards stay, and the recorded transaction carries that profile; an unknown player is NotFound and nothing changes |
| Effects.VectorIsMerged | rust/src/player_profile.rs:234-246 | The same with the bitwise difference of stored and given vector, for any lanes the two have; on well-formed vectors the difference of their bits |
| Effects.MergesCancelAndCommute | rust/src/player_profile.rs:234-246 | Merging a vector twice restores every profile, and two merges commute |
| Effects.EntitlementIsGranted | rust/src/player_profile.rs:248-318 | The player's entitlements gain one entry at the end, with the seven fields of the definition, the quantity and the expiration; achievements, profiles and other players stay; the recorded transaction carries that entry; the receipt repeats the transaction and names the block, or the answer is an error |
| Effects.AchievementIsAwarded | rust/src/player_profile.rs:320-387 | The same for achievements, with name and criteria from the definition and the time from the clock |
| ClaimEffects.ClaimIsSubmitted | rust/src/player_profile.rs:413-433 | A new claim comes last, with the nine fields of the input, the time of the clock, Pending and without review or receipt; the disk becomes the list in memory if the save works; the answer is that claim, or the error of the save |
| ClaimEffects.ClaimIsNotSubmitted | rust/src/player_profile.rs:394-411 | A claim id the player already used is answered with the first claim under it, an unknown player with NotFound, and neither changes anything |
| ClaimEffects.ReviewFindsNothing | rust/src/player_profile.rs:444-457 | Reviewing an unknown player's or an unknown claim is NotFound and changes nothing |
| ClaimEffects.ClaimIsRejected | rust/src/player_profile.rs:513-533 | The first claim under the id becomes Rejected in its place, with reviewer, note and time as given, the same submission and receipt; all other claims and the ledger stay; the disk becomes the list in memory if the save works; the answer is the stored claim; a Promoted claim refuses |
| ClaimEffects.PromotionIsRefused | rust/src/player_profile.rs:460-483 | A Promoted claim is answered as it is, a Rejected one with InvalidInput, a missing definition with NotFound, and nothing changes |
| ClaimEffects.PromotionIsMarked | rust/src/player_profile.rs:484-497 | Promoting a Pending claim marks it in its place with reviewer, note and time, whatever fails after that, and no other claim changes |
| ClaimEffects.UnsavedPromotion | rust/src/player_profile.rs:498-500 | If the mark cannot be saved the ledger and the disk stay and no receipt is recorded |
| ClaimEffects.PromotionIsAwarded | rust/src/player_profile.rs:498-512 | Once it is saved the achievement is awarded; the claim gets the transaction's id and the block's hash if the append works; disk then equals memory if the last save works, and holds the mark without the receipt otherwise |
| Claims.FindClaim | rust/src/player_profile.rs:451-457 | The first claim with the id, and none only if there is none |
| FileStorage.FileTopicLedgerStorage.AppendBlock | rust/src/qcoin_ledger_storage.rs:198-203 | The block lands at the end of its player's log or nowhere, an error may come after it was written or leave an empty log file, and no other log changes |
| FileStorage.FileTopicLedgerStorage.LoadBlocks | rust/src/ledger_storage.rs:107-126 | The log in append order, empty when there is no file |
| FileStorage.FileTopicLedgerStorage.ListPlayerIds | rust/src/ledger_storage.rs:128-139 | The loop over the directory returns the stems that parse as player ids, in its order; if the directory holds every log file once, among other files whose stems are no ids, that lists exactly the players with a log file, each once |
| FileStorage.DirectoryLists | rust/src/ledger_storage.rs:128-139 | Filtering such a directory gives such a listing |
| FileStorage.FileTopicLedgerStorage.LoadClaims | rust/src/ledger_storage.rs:141-149 | The claim set, empty when there is no file |
| FileStorage.FileTopicLedgerStorage.SaveClaims | rust/src/ledger_storage.rs:51-80 | The set is replaced as a whole or kept as it was |
| SledStorage.SledLedgerStorage.constructor | rust/src/sled_ledger_storage.rs:20-23 | An empty database, heads in step with the empty logs |
| SledStorage.SledLedgerStorage.AppendBlock | rust/src/sled_ledger_storage.rs:56-73 | Whatever fails, the block lands at the end of its player's log or nowhere and the head height never exceeds the block count; without failure the head stays in step with the log |
| SledStorage.SledLedgerStorage.UpdateHead | rust/src/sled_ledger_storage.rs:25-52 | The stored height grows by one and the stored hash becomes the block's, for this player only, up to where storage fails |
| SledStorage.SledLedgerStorage.LoadBlocks | rust/src/sled_ledger_storage.rs:75-89 | The blocks in key order, which is append order |
| SledStorage.SledLedgerStorage.SaveClaims | rust/src/sled_ledger_storage.rs:124-144 | The player's claim tree holds the given claims and nothing older |
| SledStorage.SledLedgerStorage.LoadClaims | rust/src/sled_ledger_storage.rs:103-122 | The claims of the tree, sorted by client sequence and then claim id |
| SledStorage.BigEndianOrder | rust/src/sled_ledger_storage.rs:67-67 | On big-endian keys of one width byte order is number order, and different numbers have different keys |
| SledStorage.BigEndianRoundTrip | rust/src/sled_ledger_storage.rs:35-43 | Decoding the big-endian bytes of a number gives the number |
| SledStorage.FreshIdGoesLast | rust/src/sled_ledger_storage.rs:61-68 | An entry under a fresh, larger id is iterated last |
| SledStorage.InsertKeepsOrder | rust/src/sled_ledger_storage.rs:138-138 | A tree insertion keeps the keys strictly ascending, adds the new entry and drops only an entry with its key |
| SledStorage.InsertNewKey | rust/src/sled_ledger_storage.rs:138-138 | A new key adds one value and keeps all others |
| SledStorage.LoadIsSortedPermutation | rust/src/sled_ledger_storage.rs:103-144 | Saving and loading a claim set with distinct ids returns the same claims with client sequences that never go down and, where they are equal, claim ids in lexicographic order of their bytes; no other list of these claims is in that order |
| SledStorage.LookupAgrees | rust/src/player_profile.rs:210-219 | Looking a claim up by id gives on the loaded set what it gave on the saved list |
| Registry.KeyInjective | rust/src/achievement_registry.rs:63-65 | Two definitions with colon-free developer and game and the same key are the same; ids may hold colons and versions are any number |
| Registry.KeyReadsBack | rust/src/achievement_registry.rs:63-65 | Cut at its first two colons, the key of a definition with colon-free developer and game reads developer, game, and id with `:v` and the version |
| Text.DecimalRoundTrip | rust/src/achievement_registry.rs:63-65 | Printed numbers are decimal numerals without leading zeros that read back as the number |
| Registry.KeyUnambiguousIff | rust/src/achievement_registry.rs:63-65 | A key belongs to one definition only, among all definitions, if and only if developer, game and id hold no colon |
| Registry.Resplit | rust/src/achievement_registry.rs:63-65 | A definition with a colon in some name shares its key with the definition found by splitting the names elsewhere |
| Registry.InsertRefines | rust/src/achievement_registry.rs:47-50 | Storing under the string key keeps agreement with a map keyed by the four names |
| Registry.AchievementRegistry.constructor | rust/src/achievement_registry.rs:18-33 | An empty registry agrees with the empty map |
| Registry.AchievementRegistry.Insert | rust/src/achievement_registry.rs:47-50 | Colon-free insertions keep the string-keyed registry a map of the four names |
| Registry.AchievementRegistry.Get | rust/src/achievement_registry.rs:52-61 | A colon-free lookup returns what was stored under exactly those four names |
| Registry.EntitlementRegistry.constructor | rust/src/entitlement_registry.rs:19-34 | An empty registry agrees with the empty map |
| Registry.EntitlementRegistry.Insert | rust/src/entitlement_registry.rs:48-51 | Colon-free insertions keep the string-keyed registry a map of the four names |
| Registry.EntitlementRegistry.Get | rust/src/entitlement_registry.rs:53-62 | A colon-free lookup returns what was stored under exactly those four names |
| BitVectors.HammingCountsDifferences | rust/src/hd.rs:76-83 | Lane-wise population counts add up to the number of positions where two well-formed vectors differ |
| BitVectors.HammingIsMetric | rust/src/hd.rs:76-83 | The distance is zero exactly on equal vectors, symmetric, at most the dimension, and satisfies the triangle inequality |
| BitVectors.XorIsInvolutiveIsometry | rust/src/hd.rs:32-44 | Xor with a vector undoes itself, commutes, and preserves every distance |
| BitVectors.XorBits | rust/src/hd.rs:32-44 | Xor of packed lanes is position-wise difference and keeps padding clear |
| BitVectors.BitsDetermineVector | rust/src/hd.rs:4-8 | Well-formed vectors with the same bits have the same lanes |
| BitVectors.NewIsAllFalse | rust/src/hd.rs:12-15 | A new vector is well-formed and all false |
| BitVectors.SetBitKeepsWellFormed | rust/src/hd.rs:68-72 | Setting a position inside the dimension sets that bit and no other, and keeps padding clear |
| BitVectors.GetBitIsDigit | rust/src/hd.rs:62-66 | Bit i is the binary digit of weight 2^(i mod 64) of lane i / 64 |
| BitVectors.RotateLeft | rust/src/hd.rs:47-60 | The bit-by-bit loop moves the bit at i - k, cyclically, to i and keeps the vector well-formed |
| BitVectors.RotatedIsSplit | rust/src/hd.rs:47-60 | The rotation moves the last k bits to the front |
| BitVectors.RotationsCompose | rust/src/hd.rs:47-60 | Rotations add up modulo the dimension |
| BitVectors.RotateLeftComposes | rust/src/hd.rs:47-60 | Turning by a and then by b gives the very lanes of turning by a + b, and a full turn gives the vector back |
| BitVectors.RotateLeftIsIsometry | rust/src/hd.rs:47-60 | Rotating two vectors alike preserves their distance |
| BitVectors.Seed | rust/src/hd.rs:18-29 | The seed vector is well-formed and its i-th bit is the low bit of the i-th generator output |
| BitVectors.SeedsArePrefixes | rust/src/hd.rs:18-29 | Of two seed vectors of one label the shorter is the bit prefix of the longer |
| BitVectors.ThresholdSum | rust/src/hd.rs:86-96 | Position-wise true, or, and, or false, by where the threshold lies between 0, one half and 1 |
| BitVectors.ThresholdOrAnd | rust/src/hd.rs:86-96 | For thresholds above 0 and up to 1 the bundle lies between its two inputs: the distances to them add up to theirs |
| Generator.MixIsBijection | rust/src/hd.rs:142-148 | The finalizer of splitmix64 has a two-sided inverse on 64-bit words |
| Generator.StepIsInjective | rust/src/hd.rs:126-139 | The xoshiro step can be undone, and only the zero state steps to the zero state |
| Generator.NeverAllZero | rust/src/hd.rs:116-140 | From any seed, after any number of outputs, the four state words are not all zero |
| Generator.SplitMix64 | rust/src/hd.rs:142-148 | Bumps the counter with wrap-around and returns its mix |
| Generator.Xoshiro256Plus.SeedFromU64 | rust/src/hd.rs:117-124 | The state is the first four splitmix64 words |
| Generator.Xoshiro256Plus.NextU64 | rust/src/hd.rs:126-139 | Returns the sum of the two outer state words modulo 2^64 and takes one invertible step |
| Generator.CoinIsParity | rust/src/hd.rs:21-22 | The bit a seed vector takes from an output is whether the outer state words differ in their low bits |
| Generator.CounterIs | rust/src/hd.rs:142-143 | The splitmix64 counter runs through the multiples of 0x9E3779B97F4A7C15 from the seed, modulo 2^64 |
| KnownAnswers.Xoshiro256PlusVectors | rust/src/hd.rs:126-139 | From the state 1, 2, 3, 4 the first two outputs are the published 5 and 211106232532999 |
| KnownAnswers.Fnv1aVectors | rust/src/hd.rs:99-108 | The published 64-bit FNV-1a hashes of the empty text and of the letter a |
| Generator.Fnv1aHash64 | rust/src/hd.rs:99-108 | The byte loop computes the FNV-1a fold with wrap-around |
| BitWords.CountOnesIsCountTrue | rust/src/hd.rs:81-81 | Population count is the number of set bits |
| BitWords.BitOfRotateWord | rust/src/hd.rs:136-136 | Word rotation by k moves bit i - k, cyclically, to i |
| BitWords.RotateWordUndone | rust/src/hd.rs:136-136 | Rotating the rest of the way round gives the word back |
| BitWords.XorShiftRightUndone | rust/src/hd.rs:145-147 | For shifts of at least a third of the word the xor-shift and its inverse undo each other in both orders |
| BitWords.XorShiftLeftUndone | rust/src/hd.rs:128-135 | For shifts of at least a quarter of the word the left xor-shift can be undone |

## Left out

- HTTP routing, extractors, status codes and JSON encoding: plumbing around the modelled steps.
- Tokens, scopes, identity exchange and session expiry: a developer in the model is the one its token names.
- SHA-256, chrono and UUID internals: parameters and the assumptions above.
- The digests inside transactions and receipts are parameters; that the client library hashes a tagged form and the service the bare award is not modelled, so nothing is said about client-side receipt checks.
- QCoin consensus, mirroring and node submission: only their effect, an append that fails after the log was written.
- File locks, partial writes and fsync: the file backend appends a whole block or nothing and replaces a whole claim set or nothing.
- Sled claim saves that fail half way: the source clears the tree and then inserts, so they are not atomic, and the run theorems are about the file backend; sled ids are assumed not to use up the 64-bit space.
- Versions in the hashed text are any strings: `HashInput.DeterminedIff` does not restrict the second reading to strings Cargo would accept as a version.
- Locks themselves: the concurrent handlers are modelled as interleaved atomic pieces on values; poisoning of the service lock after a panicking merge (vectors of different dimensions) is not modelled, such a merge changes nothing.
- Client vectors that are not validated: setting and merging take any lanes, but the vector laws on distance, rotation and bundling need well-formed vectors, and merging equal dimensions, where the source panics.
- `set_bit` on a shared vector: vectors are values, an update returns the changed copy.
- Single-precision rounding in `threshold_sum`: the threshold is a real number; the halved sums are exactly 0, one half and 1.
- Registry writes that fail or stop half way: reads that fail and registrations that overwrite each other are modelled, a truncated registry file is not.
- The JSON of the registry files, the concept registry, and the read-only getters of the service: they would only add easy members.

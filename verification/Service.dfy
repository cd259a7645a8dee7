/** `PlayerProfileService` as the object it is: maps and a chain updated step by step, and a
    storage it writes to. */
module Service {
  import opened Common
  import opened BitVectors
  import opened Blockchain
  import opened LogVerifier
  import opened Registry
  import opened Journal
  import opened Claims
  import opened FileStorage

  lemma NothingReplayed()
    ensures ApplyBlocks(EMPTY_INDEX, []) == EMPTY_INDEX
    ensures SortByTime([]) == [] && DedupByHash([]) == []
  {
  }

  class PlayerProfileService {
    var profiles: map<string, PlayerProfile>
    var rewards: map<string, RewardState>
    var achievementClaims: map<string, seq<AchievementClaim>>
    const ledger: Blockchain
    const storage: FileTopicLedgerStorage
    const env: Env
    const version: string

    ghost predicate Valid()
      reads ledger
    {
      ledger.chain != []
    }

    function IndexNow(): Index
      reads this`profiles, this`rewards
    {
      Index(profiles, rewards)
    }

    /** The ledger half of the state. */
    ghost function BookNow(): Book
      requires Valid()
      reads this, ledger, storage
    {
      Book(IndexNow(), ledger.chain, storage.logs)
    }

    /** The claim half of the state. */
    ghost function DeskNow(): Desk
      reads this, storage
    {
      Desk(achievementClaims, storage.claims)
    }

    // ------------------------------------------------------------------ restart

    /** `PlayerProfileService::new`: replay every listed log, then sort and deduplicate the
        verified blocks behind a new genesis block. */
    constructor New(env: Env, version: string, storage: FileTopicLedgerStorage, stems: seq<string>,
                    faults: ReadFaults, now: string)
      ensures Valid() && fresh(this.ledger) && this.storage == storage && this.env == env && this.version == version
      ensures BookNow() == ReplayBook(env, storage.logs, PlayerStems(stems, env.isUuid), faults, Launch(now, version))
      ensures DeskNow() == ReplayDesk(storage.claims, PlayerStems(stems, env.isUuid), faults)
    {
      NothingReplayed();
      hide ApplyBlocks, SortByTime, DedupByHash, Verified, PlayerStems;
      profiles, rewards, achievementClaims := map[], map[], map[];
      this.storage, this.env, this.version := storage, env, version;
      ledger := new Blockchain(now, version);
      new;
      var listed := storage.ListPlayerIds(stems, env.isUuid, faults.listing);
      if listed.Ok? {
        var ids := listed.value;
        var verifiedBlocks: seq<Block> := [];
        for i := 0 to |ids|
          invariant verifiedBlocks == ReplayedBlocks(env.hash, storage.logs, ids[..i], faults)
          invariant IndexNow() == ApplyBlocks(EMPTY_INDEX, verifiedBlocks)
          invariant achievementClaims == ReplayClaims(storage.claims, ids[..i], faults)
          invariant storage.logs == old(storage.logs) && storage.claims == old(storage.claims)
          invariant ledger.chain == [GenesisBlock(now, version)]
        {
          assert ids[..i + 1][..i] == ids[..i];
          var valid := ReplayLog(ids[i], faults, now, verifiedBlocks);
          verifiedBlocks := verifiedBlocks + valid;
          ReplayClaimSet(ids[i], faults);
        }
        assert ids[..|ids|] == ids;
        AdoptBlocks(SortByTime(verifiedBlocks));
      }
    }

    /** Load one log, verify it, and index the verified blocks. */
    method ReplayLog(id: string, faults: ReadFaults, now: string, ghost before: seq<Block>) returns (valid: seq<Block>)
      requires IndexNow() == ApplyBlocks(EMPTY_INDEX, before)
      modifies this`profiles, this`rewards
      ensures valid == if id in faults.blocks then [] else Verified(env.hash, GENESIS_HASH, LogOf(storage.logs, id))
      ensures IndexNow() == ApplyBlocks(EMPTY_INDEX, before + valid)
    {
      hide Verified, Quarantined, ApplyTransactions;
      valid := [];
      var loaded := storage.LoadBlocks(id, id in faults.blocks);
      if loaded.Ok? {
        var quarantined;
        valid, quarantined := VerifyPlayerBlocks(env.hash, loaded.value, now, version);
        assert before + valid[..0] == before;
        for j := 0 to |valid|
          invariant IndexNow() == ApplyBlocks(EMPTY_INDEX, before + valid[..j])
        {
          assert (before + valid[..j + 1])[..|before| + j] == before + valid[..j];
          ReplayBlock(valid[j]);
        }
        assert valid[..|valid|] == valid;
      } else {
        assert before + valid == before;
      }
    }

    /** Adopt one player's claim set unless it is empty or cannot be read. */
    method ReplayClaimSet(id: string, faults: ReadFaults)
      modifies this`achievementClaims
      ensures achievementClaims
              == if id in faults.claims || ClaimsOf(storage.claims, id) == [] then old(achievementClaims)
                 else old(achievementClaims)[id := storage.claims[id]]
    {
      var claims := storage.LoadClaims(id, id in faults.claims);
      if claims.Ok? && claims.value != [] {
        achievementClaims := achievementClaims[id := claims.value];
      }
    }

    /** Index the transactions of one verified block. */
    method ReplayBlock(block: Block)
      modifies this`profiles, this`rewards
      ensures IndexNow() == ApplyTransactions(old(IndexNow()), block.transactions)
    {
      var txns := block.transactions;
      for k := 0 to |txns|
        invariant IndexNow() == ApplyTransactions(old(IndexNow()), txns[..k])
      {
        assert txns[..k + 1][..k] == txns[..k];
        var txn := txns[k];
        match txn.details {
          case ProfileChanged(change) =>
            profiles := profiles[change.profile.playerId := change.profile];
          case EntitlementGranted(e) =>
            rewards := PushEntitlement(rewards, txn.playerId, e);
          case AchievementAwarded(a) =>
            rewards := PushAchievement(rewards, txn.playerId, a);
        }
      }
      assert txns[..|txns|] == txns;
    }

    /** Push the blocks whose hash was not seen before on the ledger. */
    method AdoptBlocks(blocks: seq<Block>)
      modifies ledger
      ensures ledger.chain == old(ledger.chain) + DedupByHash(blocks)
    {
      var seen: set<string> := {};
      for i := 0 to |blocks|
        invariant seen == HashesOf(blocks[..i])
        invariant ledger.chain == old(ledger.chain) + DedupByHash(blocks[..i])
      {
        assert blocks[..i + 1] == blocks[..i] + [blocks[i]];
        if blocks[i].blockHash !in seen {
          ledger.chain := ledger.chain + [blocks[i]];
        }
        seen := seen + {blocks[i].blockHash};
      }
      assert blocks[..|blocks|] == blocks;
    }

    // ----------------------------------------------------------------- profiles

    /** `log_change` */
    method LogChange(profile: PlayerProfile, io: Inputs) returns (r: Result<()>)
      requires io.version == version
      requires Valid()
      modifies ledger, storage`logs
      ensures Valid() && DeskNow() == old(DeskNow())
      ensures (BookNow(), r) == Journal.LogChange(env, old(BookNow()), profile, io)
    {
      var txn := ChangeTransaction(env, profile, io);
      ledger.AddBlock(env.hash, [txn], io.minedAt, version);
      if env.isUuid(profile.playerId) {
        var block := ledger.chain[|ledger.chain| - 1];
        var appended := storage.AppendBlock(profile.playerId, block, io.append);
        if appended.Err? {
          return appended;
        }
      }
      return Ok(());
    }

    /** `create_profile` */
    method CreateProfile(player: string, name: string, io: Inputs) returns (r: Result<PlayerProfile>)
      requires io.version == version
      requires Valid()
      modifies this`profiles, this`rewards, ledger, storage`logs
      ensures Valid() && DeskNow() == old(DeskNow())
      ensures (BookNow(), r) == Journal.CreateProfile(env, old(BookNow()), player, name, io)
    {
      var profile := PlayerProfile(player, name, BitVectors.New(DEFAULT_DIM));
      profiles := profiles[player := profile];
      rewards := rewards[player := RewardsOf(rewards, player)];
      var logged := LogChange(profile, io);
      if logged.Err? {
        return Err(logged.kind);
      }
      return Ok(profiles[player]);
    }

    /** `set_vector` */
    method SetVector(player: string, vec: BitVec, io: Inputs) returns (r: Result<()>)
      requires io.version == version
      requires Valid()
      modifies this`profiles, ledger, storage`logs
      ensures Valid() && DeskNow() == old(DeskNow())
      ensures (BookNow(), r) == Journal.SetVector(env, old(BookNow()), player, vec, io)
    {
      if player !in profiles {
        return Err(NotFound);
      }
      profiles := profiles[player := profiles[player].(profileVec := vec)];
      r := LogChange(profiles[player], io);
    }

    /** `merge_vector`; vectors of different dimensions make the source panic. */
    method MergeVector(player: string, vec: BitVec, io: Inputs) returns (r: Result<()>)
      requires io.version == version
      requires Valid() && Mergeable(BookNow(), player, vec)
      modifies this`profiles, ledger, storage`logs
      ensures Valid() && DeskNow() == old(DeskNow())
      ensures (BookNow(), r) == Journal.MergeVector(env, old(BookNow()), player, vec, io)
    {
      if player !in profiles {
        return Err(NotFound);
      }
      var merged := BitVectors.Xor(profiles[player].profileVec, vec);
      profiles := profiles[player := profiles[player].(profileVec := merged)];
      r := LogChange(profiles[player], io);
    }

    // ------------------------------------------------------------------- awards

    /** `award_entitlement`: memory first, then the chain, then storage. */
    method AwardEntitlement(player: string, def: EntitlementDefinition, quantity: nat,
                            expirationDate: Option<string>, io: Inputs)
      returns (r: Result<AwardRecord>)
      requires io.version == version
      requires Valid()
      modifies this`rewards, ledger, storage`logs
      ensures Valid() && DeskNow() == old(DeskNow())
      ensures (BookNow(), r) == Journal.AwardEntitlement(env, old(BookNow()), player, def, quantity, expirationDate, io)
    {
      hide Mined, ValidChain, PushEntitlement, PushAchievement, GrantedEntitlement, AwardedAchievement;
      if player !in profiles {
        return Err(NotFound);
      }
      var details := GrantedEntitlement(def, quantity, expirationDate);
      rewards := PushEntitlement(rewards, player, details);
      var txn := AwardTransaction(env, player, "entitlement", EntitlementGranted(details), io);
      ledger.AddBlock(env.hash, [txn], io.minedAt, version);
      if env.isUuid(player) {
        var block := ledger.chain[|ledger.chain| - 1];
        var appended := storage.AppendBlock(player, block, io.append);
        if appended.Err? {
          return Err(appended.kind);
        }
        return Ok(Receipt(block.transactions[|block.transactions| - 1], block));
      }
      return Err(Other);
    }

    /** `award_achievement` */
    method AwardAchievement(player: string, def: AchievementDefinition, io: Inputs) returns (r: Result<AwardRecord>)
      requires io.version == version
      requires Valid()
      modifies this`rewards, ledger, storage`logs
      ensures Valid() && DeskNow() == old(DeskNow())
      ensures (BookNow(), r) == Journal.AwardAchievement(env, old(BookNow()), player, def, io)
    {
      hide Mined, ValidChain, PushEntitlement, PushAchievement, GrantedEntitlement, AwardedAchievement;
      if player !in profiles {
        return Err(NotFound);
      }
      var details := AwardedAchievement(def, io);
      rewards := PushAchievement(rewards, player, details);
      var txn := AwardTransaction(env, player, "achievement", AchievementAwarded(details), io);
      ledger.AddBlock(env.hash, [txn], io.minedAt, version);
      if env.isUuid(player) {
        var block := ledger.chain[|ledger.chain| - 1];
        var appended := storage.AppendBlock(player, block, io.append);
        if appended.Err? {
          return Err(appended.kind);
        }
        return Ok(Receipt(block.transactions[|block.transactions| - 1], block));
      }
      return Err(Other);
    }

    // ------------------------------------------------------------------- claims

    /** `persist_claims` */
    method PersistClaims(player: string, works: bool) returns (r: Result<()>)
      modifies storage`claims
      ensures storage.logs == old(storage.logs)
      ensures (DeskNow(), r) == Claims.PersistClaims(env, old(DeskNow()), player, works)
    {
      if !env.isUuid(player) {
        return Err(InvalidInput);
      }
      var list := ClaimsOf(achievementClaims, player);
      r := storage.SaveClaims(player, list, works);
    }

    /** `submit_achievement_claim` */
    method SubmitAchievementClaim(player: string, input: ClaimInput, io: Inputs) returns (r: Result<AchievementClaim>)
      requires Valid()
      modifies this`achievementClaims, storage`claims
      ensures Valid() && BookNow() == old(BookNow())
      ensures (DeskNow(), r) == SubmitClaim(env, old(BookNow()), old(DeskNow()), player, input, io)
    {
      if player !in profiles {
        return Err(NotFound);
      }
      var claims := ClaimsOf(achievementClaims, player);
      var existing := FindClaim(claims, input.claimId);
      if existing.Some? {
        return Ok(claims[existing.value]);
      }
      var stored := SubmittedClaim(input, io.claimAt);
      achievementClaims := achievementClaims[player := claims + [stored]];
      var saved := PersistClaims(player, io.firstSave);
      if saved.Err? {
        return Err(saved.kind);
      }
      return Ok(stored);
    }

    /** `review_achievement_claim`: mark the claim, save, award, record the receipt, save. */
    method ReviewAchievementClaim(player: string, claimId: string, reviewer: string, action: ReviewAction,
                                  note: Option<string>, achievement: Option<AchievementDefinition>, io: Inputs)
      returns (r: ReviewResult)
      requires io.version == version
      requires Valid()
      modifies this`rewards, this`achievementClaims, ledger, storage
      ensures Valid()
      ensures (BookNow(), DeskNow(), r)
              == ReviewClaim(env, old(BookNow()), old(DeskNow()), player, claimId, reviewer, action, note,
                             achievement, io)
    {
      if player !in profiles {
        return Err(NotFound);
      }
      var claims := ClaimsOf(achievementClaims, player);
      var found := FindClaim(claims, claimId);
      if found.None? {
        return Err(NotFound);
      }
      match action {
        case Promote => r := PromoteAt(player, found.value, reviewer, note, achievement, io);
        case Reject => r := RejectAt(player, found.value, reviewer, note, io);
      }
    }

    /** Put a claim back at its position. */
    method SetClaim(player: string, i: nat, c: AchievementClaim)
      requires i < |ClaimsOf(achievementClaims, player)|
      modifies this`achievementClaims
      ensures DeskNow() == ReplaceClaim(old(DeskNow()), player, i, c)
    {
      var claims := ClaimsOf(achievementClaims, player);
      achievementClaims := achievementClaims[player := claims[i := c]];
    }

    method PromoteAt(player: string, i: nat, reviewer: string, note: Option<string>,
                     achievement: Option<AchievementDefinition>, io: Inputs)
      returns (r: ReviewResult)
      requires io.version == version
      requires Valid() && i < |ClaimsOf(achievementClaims, player)|
      modifies this`rewards, this`achievementClaims, ledger, storage
      ensures Valid()
      ensures (BookNow(), DeskNow(), r)
              == PromoteClaim(env, old(BookNow()), old(DeskNow()), player, i, reviewer, note, achievement, io)
    {
      var claim := ClaimsOf(achievementClaims, player)[i];
      if claim.status.Promoted? {
        return Ok((claim, None));
      }
      if claim.status.Rejected? {
        return Err(InvalidInput);
      }
      if achievement.None? {
        return Err(NotFound);
      }
      claim := Reviewed(claim, Promoted, reviewer, note, io.claimAt);
      SetClaim(player, i, claim);
      var saved := PersistClaims(player, io.firstSave);
      if saved.Err? {
        return Err(saved.kind);
      }
      var award := AwardAchievement(player, achievement.value, io);
      if award.Err? {
        return Err(award.kind);
      }
      claim := claim.(awardedTransactionId := Some(award.value.transactionId),
                      awardedBlockHash := Some(award.value.blockHash));
      SetClaim(player, i, claim);
      saved := PersistClaims(player, io.secondSave);
      if saved.Err? {
        return Err(saved.kind);
      }
      return Ok((claim, Some(award.value)));
    }

    method RejectAt(player: string, i: nat, reviewer: string, note: Option<string>, io: Inputs)
      returns (r: ReviewResult)
      requires Valid() && i < |ClaimsOf(achievementClaims, player)|
      modifies this`achievementClaims, storage`claims
      ensures Valid() && BookNow() == old(BookNow())
      ensures (DeskNow(), r) == RejectClaim(env, old(DeskNow()), player, i, reviewer, note, io)
    {
      var claim := ClaimsOf(achievementClaims, player)[i];
      if claim.status.Promoted? {
        return Err(InvalidInput);
      }
      claim := Reviewed(claim, Rejected, reviewer, note, io.claimAt);
      SetClaim(player, i, claim);
      var saved := PersistClaims(player, io.firstSave);
      if saved.Err? {
        return Err(saved.kind);
      }
      return Ok((claim, None));
    }
  }
}

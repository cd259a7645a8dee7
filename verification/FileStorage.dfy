/** The file backend, with each file abstracted to what it holds: one append-only block log
    and one claim set per player. */
module FileStorage {
  import opened Common
  import opened Blockchain
  import opened Journal
  import opened Claims

  function PlayerStems(stems: seq<string>, isUuid: string -> bool): seq<string> {
    if stems == [] then []
    else
      var n := |stems| - 1;
      PlayerStems(stems[..n], isUuid) + (if isUuid(stems[n]) then [stems[n]] else [])
  }

  /** Every log file once, in any order, among other files whose stems are no player ids, as
      the claim files are. */
  predicate Directory(stems: seq<string>, isUuid: string -> bool, logs: map<string, seq<Block>>) {
    && (forall p | p in logs :: p in stems && isUuid(p))
    && (forall s | s in stems && isUuid(s) :: s in logs)
    && (forall i, j | 0 <= i < j < |stems| && isUuid(stems[i]) :: stems[i] != stems[j])
  }

  /** Filtering such a directory lists exactly the players with a log file, each once. */
  lemma DirectoryLists(stems: seq<string>, isUuid: string -> bool, logs: map<string, seq<Block>>)
    requires Directory(stems, isUuid, logs)
    ensures Lists(PlayerStems(stems, isUuid), logs)
  {
    forall p
      ensures p in PlayerStems(stems, isUuid) <==> p in stems && isUuid(p)
    {
      StemsAreFiltered(stems, isUuid, p);
    }
    StemsAreDistinct(stems, isUuid);
  }

  lemma {:induction false} StemsAreFiltered(stems: seq<string>, isUuid: string -> bool, p: string)
    ensures p in PlayerStems(stems, isUuid) <==> p in stems && isUuid(p)
  {
    if stems != [] {
      var n := |stems| - 1;
      StemsAreFiltered(stems[..n], isUuid, p);
      assert stems == stems[..n] + [stems[n]];
    }
  }

  lemma {:induction false} StemsAreDistinct(stems: seq<string>, isUuid: string -> bool)
    requires forall i, j | 0 <= i < j < |stems| && isUuid(stems[i]) :: stems[i] != stems[j]
    ensures var ids := PlayerStems(stems, isUuid); forall i, j | 0 <= i < j < |ids| :: ids[i] != ids[j]
  {
    if stems != [] {
      var n := |stems| - 1;
      StemsAreDistinct(stems[..n], isUuid);
      StemsAreFiltered(stems[..n], isUuid, stems[n]);
    }
  }

  class FileTopicLedgerStorage {
    var logs: map<string, seq<Block>>
    var claims: map<string, seq<AchievementClaim>>

    constructor ()
      ensures logs == map[] && claims == map[]
    {
      logs, claims := map[], map[];
    }

    /** `append_block`, also behind a mirror that fails after the log was written. */
    method AppendBlock(player: string, block: Block, outcome: AppendOutcome) returns (r: Result<()>)
      modifies this`logs
      ensures LogOf(logs, player) == LogOf(old(logs), player) + (if outcome.Dropped? then [] else [block])
      ensures player !in logs <==> player !in old(logs) && outcome == Dropped(false)
      ensures forall p: string :: p != player ==> LogOf(logs, p) == LogOf(old(logs), p)
      ensures logs == AppendLog(old(logs), player, block, outcome)
      ensures r.Ok? <==> outcome.Appended?
      ensures r.Err? ==> r.kind == Other
    {
      match outcome {
        case Dropped(created) =>
          if created {
            logs := logs[player := LogOf(logs, player)];
          }
          r := Err(Other);
        case WrittenThenFailed =>
          logs := logs[player := LogOf(logs, player) + [block]];
          r := Err(Other);
        case Appended =>
          logs := logs[player := LogOf(logs, player) + [block]];
          r := Ok(());
      }
    }

    /** `load_blocks`: a missing log is empty. */
    method LoadBlocks(player: string, fails: bool) returns (r: Result<seq<Block>>)
      ensures r == if fails then Err(Other) else Ok(LogOf(logs, player))
    {
      if fails {
        return Err(Other);
      }
      return Ok(if player in logs then logs[player] else []);
    }

    /** `list_player_ids`: the stems of the directory's files that parse as player ids. */
    method ListPlayerIds(stems: seq<string>, isUuid: string -> bool, fails: bool) returns (r: Result<seq<string>>)
      ensures r == if fails then Err(Other) else Ok(PlayerStems(stems, isUuid))
      ensures r.Ok? && Directory(stems, isUuid, logs) ==> Lists(r.value, logs)
    {
      if fails {
        return Err(Other);
      }
      var ids: seq<string> := [];
      for i := 0 to |stems|
        invariant ids == PlayerStems(stems[..i], isUuid)
      {
        assert stems[..i + 1][..i] == stems[..i];
        if isUuid(stems[i]) {
          ids := ids + [stems[i]];
        }
      }
      assert stems[..|stems|] == stems;
      if Directory(stems, isUuid, logs) {
        DirectoryLists(stems, isUuid, logs);
      }
      return Ok(ids);
    }

    /** `load_achievement_claims`: a missing set is empty. */
    method LoadClaims(player: string, fails: bool) returns (r: Result<seq<AchievementClaim>>)
      ensures r == if fails then Err(Other) else Ok(ClaimsOf(claims, player))
    {
      if fails {
        return Err(Other);
      }
      return Ok(if player in claims then claims[player] else []);
    }

    /** `save_achievement_claims`: written aside and renamed, so the set is replaced or kept. */
    method SaveClaims(player: string, list: seq<AchievementClaim>, works: bool) returns (r: Result<()>)
      modifies this`claims
      ensures claims == if works then old(claims)[player := list] else old(claims)
      ensures r == if works then Ok(()) else Err(Other)
    {
      if !works {
        return Err(Other);
      }
      claims := claims[player := list];
      return Ok(());
    }
  }
}

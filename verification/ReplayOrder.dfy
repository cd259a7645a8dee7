/** A directory listing comes in any order.  On logs that hold only their own player's
    transactions the order does not matter. */
module ReplayOrder {
  import opened Order
  import opened Blockchain
  import opened LogVerifier
  import opened Journal
  import opened Claims
  import opened LedgerInvariant

  /** A transaction about one player. */
  predicate About(p: string, t: Transaction) {
    t.playerId == p && (t.details.ProfileChanged? ==> t.details.change.profile.playerId == p)
  }

  predicate AllAbout(p: string, blocks: seq<Block>) {
    forall b | b in blocks :: forall t | t in b.transactions :: About(p, t)
  }

  /** Two duplicate-free listings of the same players. */
  predicate SameListing(ids: seq<string>, others: seq<string>) {
    && |ids| == |others|
    && (forall i, j | 0 <= i < j < |ids| :: ids[i] != ids[j])
    && (forall i, j | 0 <= i < j < |others| :: others[i] != others[j])
    && (forall p | p in ids :: p in others)
    && (forall p | p in others :: p in ids)
  }

  // ------------------------------------------------------------------- folding

  lemma {:induction false} ApplyTransactionsAppend(ix: Index, a: seq<Transaction>, b: seq<Transaction>)
    ensures ApplyTransactions(ix, a + b) == ApplyTransactions(ApplyTransactions(ix, a), b)
  {
    if b == [] {
      assert a + b == a;
    } else {
      var n := |b| - 1;
      assert (a + b)[..|a + b| - 1] == a + b[..n];
      ApplyTransactionsAppend(ix, a, b[..n]);
    }
  }

  lemma {:induction false} ApplyBlocksAppend(ix: Index, a: seq<Block>, b: seq<Block>)
    ensures ApplyBlocks(ix, a + b) == ApplyBlocks(ApplyBlocks(ix, a), b)
  {
    if b == [] {
      assert a + b == a;
    } else {
      var n := |b| - 1;
      assert (a + b)[..|a + b| - 1] == a + b[..n];
      ApplyBlocksAppend(ix, a, b[..n]);
    }
  }

  /** The entries one player's transactions leave, next to whatever others left before. */
  ghost predicate Beside(ix: Index, own: Index, p: string, both: Index) {
    && own.profiles.Keys <= {p} && own.rewards.Keys <= {p}
    && both == Index(ix.profiles + own.profiles, ix.rewards + own.rewards)
  }

  lemma ApplyBeside(ix: Index, own: Index, both: Index, p: string, t: Transaction)
    requires p !in ix.profiles && p !in ix.rewards
    requires Beside(ix, own, p, both) && About(p, t)
    ensures Beside(ix, ApplyTransaction(own, t), p, ApplyTransaction(both, t))
  {
    assert RewardsOf(both.rewards, p) == RewardsOf(own.rewards, p);
    match t.details {
      case ProfileChanged(change) => PutBeside(ix.profiles, own.profiles, p, change.profile);
      case EntitlementGranted(e) =>
        var r := RewardsOf(own.rewards, p);
        PutBeside(ix.rewards, own.rewards, p, r.(entitlements := r.entitlements + [e]));
      case AchievementAwarded(a) =>
        var r := RewardsOf(own.rewards, p);
        PutBeside(ix.rewards, own.rewards, p, r.(achievements := r.achievements + [a]));
    }
  }

  lemma PutBeside<V>(m: map<string, V>, own: map<string, V>, p: string, v: V)
    requires p !in m && own.Keys <= {p}
    ensures (m + own)[p := v] == m + own[p := v]
    ensures own[p := v].Keys <= {p}
  {
  }

  lemma {:induction false} TransactionsBeside(ix: Index, own: Index, both: Index, p: string, txns: seq<Transaction>)
    requires p !in ix.profiles && p !in ix.rewards
    requires Beside(ix, own, p, both)
    requires forall t | t in txns :: About(p, t)
    ensures Beside(ix, ApplyTransactions(own, txns), p, ApplyTransactions(both, txns))
  {
    if txns != [] {
      var n := |txns| - 1;
      TransactionsBeside(ix, own, both, p, txns[..n]);
      ApplyBeside(ix, ApplyTransactions(own, txns[..n]), ApplyTransactions(both, txns[..n]), p, txns[n]);
    }
  }

  /** Folding one player's blocks after others' is folding them alone, side by side. */
  lemma {:induction false} BlocksBeside(ix: Index, p: string, blocks: seq<Block>)
    requires p !in ix.profiles && p !in ix.rewards
    requires AllAbout(p, blocks)
    ensures Beside(ix, ApplyBlocks(EMPTY_INDEX, blocks), p, ApplyBlocks(ix, blocks))
  {
    if blocks == [] {
      assert ix.profiles + map[] == ix.profiles && ix.rewards + map[] == ix.rewards;
    } else {
      var n := |blocks| - 1;
      BlocksBeside(ix, p, blocks[..n]);
      assert blocks[n] in blocks;
      TransactionsBeside(ix, ApplyBlocks(EMPTY_INDEX, blocks[..n]), ApplyBlocks(ix, blocks[..n]), p,
                         blocks[n].transactions);
    }
  }

  // --------------------------------------------------------------------- index

  /** What one player's log alone leaves in the index. */
  function OwnIndex(hash: Preimage -> string, logs: map<string, seq<Block>>, faults: ReadFaults, p: string): Index {
    if p in faults.blocks then EMPTY_INDEX
    else ApplyBlocks(EMPTY_INDEX, Verified(hash, GENESIS_HASH, LogOf(logs, p)))
  }

  /** The index a listing rebuilds, written without any order. */
  ghost function UnorderedIndex(hash: Preimage -> string, logs: map<string, seq<Block>>, faults: ReadFaults,
                                players: set<string>): Index
  {
    Index(UnorderedProfiles(hash, logs, faults, players), UnorderedRewards(hash, logs, faults, players))
  }

  ghost function UnorderedProfiles(hash: Preimage -> string, logs: map<string, seq<Block>>, faults: ReadFaults,
                                   players: set<string>): map<string, PlayerProfile>
  {
    map p | p in players && p in OwnIndex(hash, logs, faults, p).profiles :: OwnIndex(hash, logs, faults, p).profiles[p]
  }

  ghost function UnorderedRewards(hash: Preimage -> string, logs: map<string, seq<Block>>, faults: ReadFaults,
                                  players: set<string>): map<string, RewardState>
  {
    map p | p in players && p in OwnIndex(hash, logs, faults, p).rewards :: OwnIndex(hash, logs, faults, p).rewards[p]
  }

  function Players(ids: seq<string>): set<string> {
    set p | p in ids
  }

  lemma VerifiedIsAbout(hash: Preimage -> string, p: string, log: seq<Block>)
    requires AllAbout(p, log)
    ensures AllAbout(p, Verified(hash, GENESIS_HASH, log))
  {
    forall b | b in Verified(hash, GENESIS_HASH, log)
      ensures b in log
    {
      VerifiedIsFromLog(hash, GENESIS_HASH, log, b);
    }
  }

  lemma {:induction false} ReplayedIndexIsUnordered(hash: Preimage -> string, logs: map<string, seq<Block>>,
                                                    ids: seq<string>, faults: ReadFaults)
    requires forall p | p in logs :: AllAbout(p, logs[p])
    requires forall i, j | 0 <= i < j < |ids| :: ids[i] != ids[j]
    ensures ApplyBlocks(EMPTY_INDEX, ReplayedBlocks(hash, logs, ids, faults))
            == UnorderedIndex(hash, logs, faults, Players(ids))
  {
    hide Verified;
    if ids == [] {
      assert UnorderedIndex(hash, logs, faults, {}) == EMPTY_INDEX;
    } else {
      var n := |ids| - 1;
      var init, p := ids[..n], ids[n];
      ReplayedIndexIsUnordered(hash, logs, init, faults);
      var before := ReplayedBlocks(hash, logs, init, faults);
      var own := if p in faults.blocks then [] else Verified(hash, GENESIS_HASH, LogOf(logs, p));
      VerifiedIsAbout(hash, p, LogOf(logs, p));
      var ix := ApplyBlocks(EMPTY_INDEX, before);
      assert p !in Players(init);
      ApplyBlocksAppend(EMPTY_INDEX, before, own);
      BlocksBeside(ix, p, own);
      assert ids == init + [p];
      assert Players(ids) == Players(init) + {p};
      UnorderedOneMore(hash, logs, faults, Players(init), p);
    }
  }

  lemma UnorderedOneMore(hash: Preimage -> string, logs: map<string, seq<Block>>, faults: ReadFaults,
                         players: set<string>, p: string)
    requires p !in players
    requires OwnIndex(hash, logs, faults, p).profiles.Keys <= {p} && OwnIndex(hash, logs, faults, p).rewards.Keys <= {p}
    ensures var own, before := OwnIndex(hash, logs, faults, p), UnorderedIndex(hash, logs, faults, players);
      UnorderedIndex(hash, logs, faults, players + {p})
      == Index(before.profiles + own.profiles, before.rewards + own.rewards)
  {
    hide OwnIndex;
    ProfilesOneMore(hash, logs, faults, players, p);
    RewardsOneMore(hash, logs, faults, players, p);
  }

  lemma ProfilesOneMore(hash: Preimage -> string, logs: map<string, seq<Block>>, faults: ReadFaults,
                        players: set<string>, p: string)
    requires p !in players && OwnIndex(hash, logs, faults, p).profiles.Keys <= {p}
    ensures UnorderedProfiles(hash, logs, faults, players + {p})
            == UnorderedProfiles(hash, logs, faults, players) + OwnIndex(hash, logs, faults, p).profiles
  {
    hide OwnIndex;
  }

  lemma RewardsOneMore(hash: Preimage -> string, logs: map<string, seq<Block>>, faults: ReadFaults,
                       players: set<string>, p: string)
    requires p !in players && OwnIndex(hash, logs, faults, p).rewards.Keys <= {p}
    ensures UnorderedRewards(hash, logs, faults, players + {p})
            == UnorderedRewards(hash, logs, faults, players) + OwnIndex(hash, logs, faults, p).rewards
  {
    hide OwnIndex;
  }

  lemma {:induction false} ReplayedClaimsAreUnordered(saved: map<string, seq<AchievementClaim>>, ids: seq<string>,
                                                      faults: ReadFaults)
    ensures ReplayClaims(saved, ids, faults)
            == map p | p in Players(ids) && p !in faults.claims && ClaimsOf(saved, p) != [] :: saved[p]
  {
    if ids != [] {
      var n := |ids| - 1;
      ReplayedClaimsAreUnordered(saved, ids[..n], faults);
      assert ids == ids[..n] + [ids[n]];
      assert Players(ids) == Players(ids[..n]) + {ids[n]};
    }
  }

  // --------------------------------------------------------------------- ledger

  lemma {:induction false} ReplayedAppend(hash: Preimage -> string, logs: map<string, seq<Block>>, a: seq<string>,
                                          b: seq<string>, faults: ReadFaults)
    ensures ReplayedBlocks(hash, logs, a + b, faults)
            == ReplayedBlocks(hash, logs, a, faults) + ReplayedBlocks(hash, logs, b, faults)
  {
    if b == [] {
      assert a + b == a;
    } else {
      var n := |b| - 1;
      assert (a + b)[..|a + b| - 1] == a + b[..n];
      ReplayedAppend(hash, logs, a, b[..n], faults);
    }
  }

  lemma WithoutOne(ids: seq<string>, others: seq<string>, k: nat)
    requires SameListing(ids, others) && ids != [] && k < |others| && others[k] == ids[|ids| - 1]
    ensures SameListing(ids[..|ids| - 1], others[..k] + others[k + 1..])
  {
    var init, p, rest := ids[..|ids| - 1], others[k], others[..k] + others[k + 1..];
    assert ids == init + [p] && others == others[..k] + [p] + others[k + 1..];
    forall q | q in init
      ensures q in rest
    {
      assert q in others && q != p;
    }
    forall m | 0 <= m < |rest|
      ensures rest[m] != p
    {
      assert rest[m] == others[if m < k then m else m + 1];
    }
    forall q | q in rest
      ensures q in init
    {
      assert q in others && q in ids;
    }
  }

  lemma Regroup(x: seq<Block>, p: seq<Block>, a: seq<Block>, b: seq<Block>)
    requires multiset(x) == multiset(a + b)
    ensures multiset(x + p) == multiset(a + p + b)
  {
  }

  /** The same blocks are replayed, whatever the order. */
  lemma {:induction false} ReplayedSameBlocks(hash: Preimage -> string, logs: map<string, seq<Block>>,
                                              ids: seq<string>, others: seq<string>, faults: ReadFaults)
    requires SameListing(ids, others)
    ensures multiset(ReplayedBlocks(hash, logs, ids, faults)) == multiset(ReplayedBlocks(hash, logs, others, faults))
  {
    hide Verified;
    if ids != [] {
      var n := |ids| - 1;
      var p := ids[n];
      assert p in others;
      var k: nat :| k < |others| && others[k] == p;
      var a, b := others[..k], others[k + 1..];
      assert others == a + [p] + b && ids == ids[..n] + [p];
      WithoutOne(ids, others, k);
      ReplayedSameBlocks(hash, logs, ids[..n], a + b, faults);
      ReplayedAppend(hash, logs, ids[..n], [p], faults);
      ReplayedAppend(hash, logs, a, b, faults);
      ReplayedAppend(hash, logs, a + [p], b, faults);
      ReplayedAppend(hash, logs, a, [p], faults);
      hide ReplayedBlocks;
      Regroup(ReplayedBlocks(hash, logs, ids[..n], faults), ReplayedBlocks(hash, logs, [p], faults),
              ReplayedBlocks(hash, logs, a, faults), ReplayedBlocks(hash, logs, b, faults));
    }
  }

  lemma {:induction false} InsertKeepsBlocks(sorted: seq<Block>, b: Block)
    ensures multiset(InsertByTime(sorted, b)) == multiset(sorted) + multiset{b}
  {
    hide TextLe;
    if sorted != [] {
      var n := |sorted| - 1;
      assert sorted == sorted[..n] + [sorted[n]];
      InsertKeepsBlocks(sorted[..n], b);
    }
  }

  lemma SortedThenLatest(sorted: seq<Block>, b: Block)
    requires SortedByTime(sorted)
    requires forall x | x in sorted :: TextLe(x.timestamp, b.timestamp)
    ensures SortedByTime(sorted + [b])
  {
    hide TextLe;
    TextTotalOrder(b.timestamp, b.timestamp, b.timestamp);
    assert forall i | 0 <= i < |sorted| :: sorted[i] in sorted;
  }

  lemma {:induction false} InsertSorts(sorted: seq<Block>, b: Block)
    requires SortedByTime(sorted)
    ensures SortedByTime(InsertByTime(sorted, b))
  {
    hide TextLe, SortedByTime;
    if sorted == [] {
      SortedThenLatest([], b);
    } else {
      var n := |sorted| - 1;
      var init, last := sorted[..n], sorted[n];
      TextTotalOrder(last.timestamp, b.timestamp, last.timestamp);
      forall x | x in sorted
        ensures TextLe(x.timestamp, last.timestamp)
        ensures TextLe(last.timestamp, b.timestamp) ==> TextLe(x.timestamp, b.timestamp)
      {
        LastIsLatest(sorted, x);
        TextTotalOrder(x.timestamp, last.timestamp, b.timestamp);
      }
      if TextLe(last.timestamp, b.timestamp) {
        SortedThenLatest(sorted, b);
      } else {
        PrefixSorted(sorted);
        InsertSorts(init, b);
        InsertKeepsBlocks(init, b);
        forall x | x in InsertByTime(init, b)
          ensures TextLe(x.timestamp, last.timestamp)
        {
          assert x in multiset(InsertByTime(init, b));
          assert x in multiset(init) || x == b;
        }
        SortedThenLatest(InsertByTime(init, b), last);
      }
    }
  }

  lemma {:induction false} SortSorts(blocks: seq<Block>)
    ensures SortedByTime(SortByTime(blocks))
    ensures multiset(SortByTime(blocks)) == multiset(blocks)
  {
    if blocks != [] {
      var n := |blocks| - 1;
      var init, last := blocks[..n], blocks[n];
      assert SortByTime(blocks) == InsertByTime(SortByTime(init), last);
      hide SortedByTime, InsertByTime, SortByTime;
      SortSorts(init);
      InsertSorts(SortByTime(init), last);
      InsertKeepsBlocks(SortByTime(init), last);
      assert blocks == init + [last];
    }
  }

  lemma LastIsLatest(blocks: seq<Block>, x: Block)
    requires SortedByTime(blocks) && x in blocks
    ensures TextLe(x.timestamp, blocks[|blocks| - 1].timestamp)
  {
  }

  lemma PrefixSorted(blocks: seq<Block>)
    requires SortedByTime(blocks) && blocks != []
    ensures SortedByTime(blocks[..|blocks| - 1])
  {
  }

  // ------------------------------------------------------------------ stability

  /** The blocks a condition picks, in their order. */
  function Kept(blocks: seq<Block>, f: Block -> bool): seq<Block> {
    if blocks == [] then []
    else
      var n := |blocks| - 1;
      Kept(blocks[..n], f) + (if f(blocks[n]) then [blocks[n]] else [])
  }

  lemma KeptOne(blocks: seq<Block>, b: Block, f: Block -> bool)
    ensures Kept(blocks + [b], f) == Kept(blocks, f) + (if f(b) then [b] else [])
  {
    assert (blocks + [b])[..|blocks|] == blocks;
  }

  lemma {:induction false} KeptAppend(a: seq<Block>, b: seq<Block>, f: Block -> bool)
    ensures Kept(a + b, f) == Kept(a, f) + Kept(b, f)
  {
    if b == [] {
      assert a + b == a;
    } else {
      var n := |b| - 1;
      assert a + b == (a + b[..n]) + [b[n]] && b == b[..n] + [b[n]];
      KeptAppend(a, b[..n], f);
      KeptOne(a + b[..n], b[n], f);
      KeptOne(b[..n], b[n], f);
    }
  }

  lemma {:induction false} KeptMembers(blocks: seq<Block>, f: Block -> bool, x: Block)
    ensures x in Kept(blocks, f) <==> x in blocks && f(x)
  {
    if blocks != [] {
      var n := |blocks| - 1;
      assert blocks == blocks[..n] + [blocks[n]];
      KeptMembers(blocks[..n], f, x);
    }
  }

  /** A block inserted by time goes after every picked block that is not later. */
  lemma {:induction false} InsertKeepsOrder(sorted: seq<Block>, b: Block, f: Block -> bool)
    requires f(b) ==> forall x | x in sorted && f(x) :: TextLe(x.timestamp, b.timestamp)
    ensures Kept(InsertByTime(sorted, b), f) == Kept(sorted, f) + (if f(b) then [b] else [])
  {
    hide TextLe;
    if sorted == [] || TextLe(sorted[|sorted| - 1].timestamp, b.timestamp) {
      KeptOne(sorted, b, f);
    } else {
      var n := |sorted| - 1;
      var init, last := sorted[..n], sorted[n];
      assert sorted == init + [last];
      assert InsertByTime(sorted, b) == InsertByTime(init, b) + [last];
      InsertKeepsOrder(init, b, f);
      KeptOne(InsertByTime(init, b), last, f);
      KeptOne(init, last, f);
    }
  }

  /** The sort is stable: picked blocks that are in time order already stay in their order. */
  lemma {:induction false} SortKeepsOrder(blocks: seq<Block>, f: Block -> bool)
    requires SortedByTime(Kept(blocks, f))
    ensures Kept(SortByTime(blocks), f) == Kept(blocks, f)
  {
    hide TextLe;
    if blocks != [] {
      var n := |blocks| - 1;
      var init, last := blocks[..n], blocks[n];
      assert Kept(blocks, f) == Kept(init, f) + (if f(last) then [last] else []);
      assert SortByTime(blocks) == InsertByTime(SortByTime(init), last);
      hide SortByTime, InsertByTime, SortedByTime;
      PrefixIsSorted(Kept(blocks, f), Kept(init, f));
      SortKeepsOrder(init, f);
      forall x | f(last) && x in SortByTime(init) && f(x)
        ensures TextLe(x.timestamp, last.timestamp)
      {
        KeptMembers(SortByTime(init), f, x);
        LastIsLatest(Kept(blocks, f), x);
      }
      InsertKeepsOrder(SortByTime(init), last, f);
    }
  }

  function At(time: string): Block -> bool {
    (b: Block) => b.timestamp == time
  }

  lemma SameTimeIsSorted(blocks: seq<Block>, time: string)
    ensures SortedByTime(Kept(blocks, At(time)))
  {
    hide TextLe;
    TextTotalOrder(time, time, time);
    var kept := Kept(blocks, At(time));
    forall i | 0 <= i < |kept|
      ensures kept[i].timestamp == time
    {
      KeptMembers(blocks, At(time), kept[i]);
    }
  }

  /** Sorted sequences that agree on the blocks of every moment are equal. */
  lemma {:induction false} SortedIsUnique(a: seq<Block>, b: seq<Block>)
    requires SortedByTime(a) && SortedByTime(b)
    requires forall time :: Kept(a, At(time)) == Kept(b, At(time))
    ensures a == b
  {
    hide TextLe, SortedByTime, Kept, At;
    if a == [] && b != [] {
      LastIsKept(b, b[|b| - 1]);
      NoneKept(At(b[|b| - 1].timestamp));
    } else if a != [] {
      LastIsKept(a, a[|a| - 1]);
      NoneKept(At(a[|a| - 1].timestamp));
      assert b != [];
      SameLast(a, b, a[|a| - 1], b[|b| - 1]);
      var n, m := |a| - 1, |b| - 1;
      assert a == a[..n] + [a[n]] && b == b[..m] + [b[m]];
      PrefixSorted(a);
      PrefixSorted(b);
      forall time
        ensures Kept(a[..n], At(time)) == Kept(b[..m], At(time))
      {
        KeptOne(a[..n], a[n], At(time));
        KeptOne(b[..m], b[m], At(time));
        DropSame(Kept(a[..n], At(time)), Kept(b[..m], At(time)), if At(time)(a[n]) then [a[n]] else []);
      }
      SortedIsUnique(a[..n], b[..m]);
    }
  }

  lemma DropSame(x: seq<Block>, y: seq<Block>, z: seq<Block>)
    requires x + z == y + z
    ensures x == y
  {
    assert x == (x + z)[..|x|] && y == (y + z)[..|y|];
  }

  lemma NoneKept(f: Block -> bool)
    ensures Kept([], f) == []
  {
  }

  predicate EndsWith(blocks: seq<Block>, last: Block) {
    blocks != [] && blocks[|blocks| - 1] == last
  }

  /** The last block of a sequence is the last one of its moment. */
  lemma LastIsKept(blocks: seq<Block>, last: Block)
    requires EndsWith(blocks, last)
    ensures EndsWith(Kept(blocks, At(last.timestamp)), last)
  {
  }

  lemma SameEnd(blocks: seq<Block>, x: Block, y: Block)
    requires EndsWith(blocks, x) && EndsWith(blocks, y)
    ensures x == y
  {
  }

  /** The end of one of two such sequences is in the other, and so no later than its end. */
  lemma LastComesIn(a: seq<Block>, b: seq<Block>, x: Block, y: Block)
    requires EndsWith(a, x) && EndsWith(b, y) && SortedByTime(a)
    requires Kept(a, At(y.timestamp)) == Kept(b, At(y.timestamp))
    ensures TextLe(y.timestamp, x.timestamp)
  {
    hide TextLe, SortedByTime, Kept;
    LastIsKept(b, y);
    KeptMembers(a, At(y.timestamp), y);
    LastIsLatest(a, y);
  }

  lemma SameLast(a: seq<Block>, b: seq<Block>, x: Block, y: Block)
    requires EndsWith(a, x) && EndsWith(b, y) && SortedByTime(a) && SortedByTime(b)
    requires forall time :: Kept(a, At(time)) == Kept(b, At(time))
    ensures x == y
  {
    hide TextLe, SortedByTime, Kept, At, EndsWith;
    LastComesIn(a, b, x, y);
    LastComesIn(b, a, y, x);
    TextTotalOrder(x.timestamp, y.timestamp, x.timestamp);
    LastIsKept(a, x);
    LastIsKept(b, y);
    SameEnd(Kept(a, At(x.timestamp)), x, y);
  }

  // --------------------------------------------------------- ties between players

  /** What replay takes from one player's log. */
  function TakenFrom(hash: Preimage -> string, logs: map<string, seq<Block>>, faults: ReadFaults, p: string)
    : seq<Block>
  {
    if p in faults.blocks then [] else Verified(hash, GENESIS_HASH, LogOf(logs, p))
  }

  /** No block of one player carries the time of another player's block. */
  predicate NoTies(hash: Preimage -> string, logs: map<string, seq<Block>>, ids: seq<string>, faults: ReadFaults) {
    forall p, q, x, y |
        && p in ids && q in ids && p != q
        && x in TakenFrom(hash, logs, faults, p) && y in TakenFrom(hash, logs, faults, q) ::
      x.timestamp != y.timestamp
  }

  /** Blocks that only one listed player has are taken from that player's log alone. */
  lemma {:induction false} KeptOfReplayed(hash: Preimage -> string, logs: map<string, seq<Block>>, ids: seq<string>,
                                          faults: ReadFaults, f: Block -> bool, p: string)
    requires forall i, j | 0 <= i < j < |ids| :: ids[i] != ids[j]
    requires forall q, x | q in ids && q != p && x in TakenFrom(hash, logs, faults, q) :: !f(x)
    ensures Kept(ReplayedBlocks(hash, logs, ids, faults), f)
            == if p in ids then Kept(TakenFrom(hash, logs, faults, p), f) else []
  {
    if ids != [] {
      var n := |ids| - 1;
      var init, id := ids[..n], ids[n];
      assert id !in init && (p in ids <==> p in init || p == id);
      var taken := TakenFrom(hash, logs, faults, id);
      assert ReplayedBlocks(hash, logs, ids, faults) == ReplayedBlocks(hash, logs, init, faults) + taken;
      hide ReplayedBlocks, TakenFrom, Kept;
      KeptOfReplayed(hash, logs, init, faults, f, p);
      KeptAppend(ReplayedBlocks(hash, logs, init, faults), taken, f);
      if id != p {
        NothingKept(taken, f);
      }
    }
  }

  lemma {:induction false} NothingKept(blocks: seq<Block>, f: Block -> bool)
    requires forall x | x in blocks :: !f(x)
    ensures Kept(blocks, f) == []
  {
    if blocks != [] {
      NothingKept(blocks[..|blocks| - 1], f);
    }
  }

  /** Without ties the blocks of one moment come in the same order from every listing. */
  lemma NoTiesNoOrder(hash: Preimage -> string, logs: map<string, seq<Block>>, ids: seq<string>, others: seq<string>,
                      faults: ReadFaults, time: string)
    requires SameListing(ids, others) && NoTies(hash, logs, ids, faults)
    ensures Kept(ReplayedBlocks(hash, logs, ids, faults), At(time))
            == Kept(ReplayedBlocks(hash, logs, others, faults), At(time))
  {
    hide TakenFrom, ReplayedBlocks, Kept;
    var owner := "";
    if p, x :| p in ids && x in TakenFrom(hash, logs, faults, p) && x.timestamp == time {
      owner := p;
    }
    KeptOfReplayed(hash, logs, ids, faults, At(time), owner);
    KeptOfReplayed(hash, logs, others, faults, At(time), owner);
  }

  /** Any order of the listing rebuilds the same profiles, rewards and claims; and the same
      ledger, as long as no verified blocks of different players carry the same timestamp. */
  lemma ReplayIgnoresListingOrder(env: Env, logs: map<string, seq<Block>>, saved: map<string, seq<AchievementClaim>>,
                                  ids: seq<string>, others: seq<string>, faults: ReadFaults, now: Launch)
    requires forall p | p in logs :: AllAbout(p, logs[p])
    requires SameListing(ids, others)
    ensures ReplayDesk(saved, ids, faults) == ReplayDesk(saved, others, faults)
    ensures var a, b := ReplayBook(env, logs, ids, faults, now), ReplayBook(env, logs, others, faults, now);
      && a.index == b.index
      && (NoTies(env.hash, logs, ids, faults) ==> a.chain == b.chain)
  {
    hide AllAbout, ApplyBlocks, SortByTime, ReplayedBlocks, Verified, UnorderedIndex, NoTies;
    assert Players(ids) == Players(others);
    ReplayedClaimsAreUnordered(saved, ids, faults);
    ReplayedClaimsAreUnordered(saved, others, faults);
    ReplayedIndexIsUnordered(env.hash, logs, ids, faults);
    ReplayedIndexIsUnordered(env.hash, logs, others, faults);
    if NoTies(env.hash, logs, ids, faults) {
      SortIgnoresListingOrder(env.hash, logs, ids, others, faults);
    }
  }

  lemma SortIgnoresListingOrder(hash: Preimage -> string, logs: map<string, seq<Block>>, ids: seq<string>,
                                others: seq<string>, faults: ReadFaults)
    requires SameListing(ids, others) && NoTies(hash, logs, ids, faults)
    ensures SortByTime(ReplayedBlocks(hash, logs, ids, faults))
            == SortByTime(ReplayedBlocks(hash, logs, others, faults))
  {
    hide SortByTime, ReplayedBlocks, NoTies, SameListing, SortedByTime, Kept;
    var x, y := ReplayedBlocks(hash, logs, ids, faults), ReplayedBlocks(hash, logs, others, faults);
    SortSorts(x);
    SortSorts(y);
    forall time
      ensures Kept(SortByTime(x), At(time)) == Kept(SortByTime(y), At(time))
    {
      SameTimeIsSorted(x, time);
      SameTimeIsSorted(y, time);
      SortKeepsOrder(x, At(time));
      SortKeepsOrder(y, At(time));
      NoTiesNoOrder(hash, logs, ids, others, faults, time);
    }
    SortedIsUnique(SortByTime(x), SortByTime(y));
  }

  // ------------------------------------------------------------------ and conversely

  predicate DistinctHashes(blocks: seq<Block>) {
    forall i, j | 0 <= i < j < |blocks| :: blocks[i].blockHash != blocks[j].blockHash
  }

  /** Two blocks cannot come in both orders when every block comes once. */
  lemma TwoOrders(a: seq<Block>, b: seq<Block>, c: seq<Block>, d: seq<Block>, x: Block, y: Block)
    requires DistinctHashes(a + b) && x in a && y in b
    requires y in c && x in d
    ensures a + b != c + d
  {
    var i :| 0 <= i < |a| && a[i] == x;
    var j :| 0 <= j < |b| && b[j] == y;
    var k :| 0 <= k < |c| && c[k] == y;
    var l :| 0 <= l < |d| && d[l] == x;
    var s, t := a + b, c + d;
    assert s[i] == x && s[|a| + j] == y && t[k] == y && t[|c| + l] == x;
    assert forall n | 0 <= n < |s| && s[n] == x :: n == i;
    assert forall n | 0 <= n < |s| && s[n] == y :: n == |a| + j;
  }

  lemma {:induction false} KeptDistinct(blocks: seq<Block>, f: Block -> bool)
    requires DistinctHashes(blocks)
    ensures DistinctHashes(Kept(blocks, f))
  {
    if blocks != [] {
      var n := |blocks| - 1;
      KeptDistinct(blocks[..n], f);
      var kept := Kept(blocks[..n], f);
      forall i | 0 <= i < |kept|
        ensures kept[i].blockHash != blocks[n].blockHash
      {
        KeptMembers(blocks[..n], f, kept[i]);
      }
    }
  }

  /** The listing with one player moved to the front. */
  function Fronted(ids: seq<string>, k: nat): seq<string>
    requires k < |ids|
  {
    [ids[k]] + ids[..k] + ids[k + 1..]
  }

  lemma FrontedAt(ids: seq<string>, k: nat, m: nat)
    requires k < |ids| && m < |ids|
    ensures |Fronted(ids, k)| == |ids|
    ensures Fronted(ids, k)[m] == if m == 0 then ids[k] else if m <= k then ids[m - 1] else ids[m]
  {
  }

  lemma FrontedIsSame(ids: seq<string>, k: nat)
    requires k < |ids| && forall i, j | 0 <= i < j < |ids| :: ids[i] != ids[j]
    ensures SameListing(ids, Fronted(ids, k))
  {
    var others := Fronted(ids, k);
    hide Fronted;
    FrontedAt(ids, k, 0);
    forall i, j | 0 <= i < j < |others|
      ensures others[i] != others[j]
    {
      FrontedAt(ids, k, i);
      FrontedAt(ids, k, j);
    }
    forall p | p in ids
      ensures p in others
    {
      var m :| 0 <= m < |ids| && ids[m] == p;
      FrontedAt(ids, k, if m == k then 0 else if m < k then m + 1 else m);
    }
    forall p | p in others
      ensures p in ids
    {
      var m :| 0 <= m < |others| && others[m] == p;
      FrontedAt(ids, k, m);
    }
  }

  /** With a tie between two players, moving the later one to the front of the listing gives
      another ledger. */
  lemma TieShows(env: Env, logs: map<string, seq<Block>>, ids: seq<string>, faults: ReadFaults, now: Launch,
                 m: nat, k: nat, x: Block, y: Block)
    requires m < k < |ids| && !faults.listing
    requires forall i, j | 0 <= i < j < |ids| :: ids[i] != ids[j]
    requires DistinctHashes(ReplayedBlocks(env.hash, logs, ids, faults))
    requires DistinctHashes(ReplayedBlocks(env.hash, logs, Fronted(ids, k), faults))
    requires x in TakenFrom(env.hash, logs, faults, ids[m]) && y in TakenFrom(env.hash, logs, faults, ids[k])
    requires x.timestamp == y.timestamp
    ensures ReplayBook(env, logs, ids, faults, now).chain != ReplayBook(env, logs, Fronted(ids, k), faults, now).chain
  {
    hide SortByTime, DedupByHash, ApplyBlocks, Kept, DistinctHashes, TakenFrom, Fronted;
    var f := At(x.timestamp);
    var others := Fronted(ids, k);
    var all, moved := ReplayedBlocks(env.hash, logs, ids, faults), ReplayedBlocks(env.hash, logs, others, faults);
    var early, late := EarlyAndLate(env.hash, logs, ids, faults, m, k, x, y);
    var front, rest := FrontAndRest(env.hash, logs, ids, faults, m, k, x, y);
    hide ReplayedBlocks;
    KeptAppend(early, late, f);
    KeptAppend(front, rest, f);
    KeptMembers(early, f, x);
    KeptMembers(late, f, y);
    KeptMembers(front, f, y);
    KeptMembers(rest, f, x);
    KeptDistinct(all, f);
    TwoOrders(Kept(early, f), Kept(late, f), Kept(front, f), Kept(rest, f), x, y);
    SameTimeIsSorted(all, x.timestamp);
    SameTimeIsSorted(moved, x.timestamp);
    SortKeepsOrder(all, f);
    SortKeepsOrder(moved, f);
    DedupOfSorted(all);
    DedupOfSorted(moved);
    TailsDiffer(ReplayBook(env, logs, ids, faults, now).chain, ReplayBook(env, logs, others, faults, now).chain,
                SortByTime(all), SortByTime(moved), now);
  }

  lemma TailsDiffer(a: seq<Block>, b: seq<Block>, x: seq<Block>, y: seq<Block>, now: Launch)
    requires a == [GenesisBlock(now.at, now.version)] + x && b == [GenesisBlock(now.at, now.version)] + y
    requires x != y
    ensures a != b
  {
    assert a[1..] == x && b[1..] == y;
  }

  lemma EarlyAndLate(hash: Preimage -> string, logs: map<string, seq<Block>>, ids: seq<string>, faults: ReadFaults,
                     m: nat, k: nat, x: Block, y: Block)
    returns (early: seq<Block>, late: seq<Block>)
    requires m < k < |ids|
    requires x in TakenFrom(hash, logs, faults, ids[m]) && y in TakenFrom(hash, logs, faults, ids[k])
    ensures ReplayedBlocks(hash, logs, ids, faults) == early + late && x in early && y in late
  {
    early, late := ReplayedBlocks(hash, logs, ids[..k], faults), ReplayedBlocks(hash, logs, ids[k..], faults);
    assert ids == ids[..k] + ids[k..];
    ReplayedAppend(hash, logs, ids[..k], ids[k..], faults);
    TakenIsReplayed(hash, logs, ids[..k], faults, m, x);
    TakenIsReplayed(hash, logs, ids[k..], faults, 0, y);
  }

  lemma FrontAndRest(hash: Preimage -> string, logs: map<string, seq<Block>>, ids: seq<string>, faults: ReadFaults,
                     m: nat, k: nat, x: Block, y: Block)
    returns (front: seq<Block>, rest: seq<Block>)
    requires m < k < |ids|
    requires x in TakenFrom(hash, logs, faults, ids[m]) && y in TakenFrom(hash, logs, faults, ids[k])
    ensures ReplayedBlocks(hash, logs, Fronted(ids, k), faults) == front + rest && y in front && x in rest
  {
    var after := ids[..k] + ids[k + 1..];
    front, rest := ReplayedBlocks(hash, logs, [ids[k]], faults), ReplayedBlocks(hash, logs, after, faults);
    assert Fronted(ids, k) == [ids[k]] + after;
    ReplayedAppend(hash, logs, [ids[k]], after, faults);
    TakenIsReplayed(hash, logs, [ids[k]], faults, 0, y);
    assert after[m] == ids[m];
    TakenIsReplayed(hash, logs, after, faults, m, x);
  }

  lemma {:induction false} TakenIsReplayed(hash: Preimage -> string, logs: map<string, seq<Block>>, ids: seq<string>,
                                           faults: ReadFaults, m: nat, x: Block)
    requires m < |ids| && x in TakenFrom(hash, logs, faults, ids[m])
    ensures x in ReplayedBlocks(hash, logs, ids, faults)
  {
    hide Verified;
    if m < |ids| - 1 {
      TakenIsReplayed(hash, logs, ids[..|ids| - 1], faults, m, x);
    }
  }

  /** No earlier block carries the hash of this one. */
  predicate NewHash(blocks: seq<Block>, i: nat)
    requires i < |blocks|
  {
    forall k | 0 <= k < i :: blocks[k].blockHash != blocks[i].blockHash
  }

  /** The blocks at these positions, in order. */
  predicate Picks(blocks: seq<Block>, kept: seq<nat>, picked: seq<Block>) {
    && |kept| == |picked|
    && (forall j | 0 <= j < |kept| :: kept[j] < |blocks| && picked[j] == blocks[kept[j]])
    && (forall j, k | 0 <= j < k < |kept| :: kept[j] < kept[k])
  }

  lemma PicksOneMore(blocks: seq<Block>, kept: seq<nat>, picked: seq<Block>, more: bool)
    requires blocks != [] && Picks(blocks[..|blocks| - 1], kept, picked)
    ensures var n := |blocks| - 1;
      Picks(blocks, kept + (if more then [n] else []), picked + (if more then [blocks[n]] else []))
  {
  }

  /** The dedup keeps, in order, exactly the positions whose hash does not occur before. */
  lemma {:induction false} DedupKeepsFirst(blocks: seq<Block>) returns (kept: seq<nat>)
    ensures Picks(blocks, kept, DedupByHash(blocks))
    ensures forall i: nat | i < |blocks| :: i in kept <==> NewHash(blocks, i)
  {
    if blocks == [] {
      kept := [];
    } else {
      var n := |blocks| - 1;
      var init, b := blocks[..n], blocks[n];
      var before := DedupKeepsFirst(init);
      var more := b.blockHash !in HashesOf(init);
      assert DedupByHash(blocks) == DedupByHash(init) + (if more then [b] else []);
      kept := before + (if more then [n] else []);
      HashIsNew(blocks);
      hide DedupByHash, HashesOf, NewHash;
      PicksOneMore(blocks, before, DedupByHash(init), more);
      OneMoreKept(blocks, before, kept);
    }
  }

  lemma OneMoreKept(blocks: seq<Block>, before: seq<nat>, kept: seq<nat>)
    requires blocks != [] && forall j | 0 <= j < |before| :: before[j] < |blocks| - 1
    requires forall i: nat | i < |blocks| - 1 :: i in before <==> NewHash(blocks[..|blocks| - 1], i)
    requires kept == before + (if NewHash(blocks, |blocks| - 1) then [|blocks| - 1] else [])
    ensures forall i: nat | i < |blocks| :: i in kept <==> NewHash(blocks, i)
  {
    hide NewHash;
    forall i: nat | i < |blocks|
      ensures i in kept <==> NewHash(blocks, i)
    {
      if i < |blocks| - 1 {
        NewHashOfPrefix(blocks, i);
      }
    }
  }

  lemma HashIsNew(blocks: seq<Block>)
    requires blocks != []
    ensures var n := |blocks| - 1; NewHash(blocks, n) <==> blocks[n].blockHash !in HashesOf(blocks[..n])
  {
    var n := |blocks| - 1;
    forall k | 0 <= k < n
      ensures blocks[k].blockHash in HashesOf(blocks[..n])
    {
      assert blocks[..n][k] in blocks[..n];
    }
  }

  lemma NewHashOfPrefix(blocks: seq<Block>, i: nat)
    requires i < |blocks| - 1
    ensures NewHash(blocks[..|blocks| - 1], i) <==> NewHash(blocks, i)
  {
  }

  lemma DedupOfSorted(blocks: seq<Block>)
    requires DistinctHashes(blocks)
    ensures DedupByHash(SortByTime(blocks)) == SortByTime(blocks)
  {
    hide SortByTime, DedupByHash;
    SortSorts(blocks);
    SameBlocksDistinct(blocks, SortByTime(blocks));
    DedupKeepsDistinct(SortByTime(blocks));
  }

  lemma SameBlocksDistinct(a: seq<Block>, b: seq<Block>)
    requires DistinctHashes(a) && multiset(a) == multiset(b)
    ensures DistinctHashes(b)
  {
    forall i, j | 0 <= i < j < |b|
      ensures b[i].blockHash != b[j].blockHash
    {
      assert b == b[..i] + [b[i]] + b[i + 1..j] + [b[j]] + b[j + 1..];
      assert b[i] in multiset(a) && b[j] in multiset(a);
      if b[i] == b[j] {
        assert multiset(b)[b[i]] >= 2;
        OnceOnly(a, b[i]);
      }
    }
  }

  lemma {:induction false} OnceOnly(blocks: seq<Block>, x: Block)
    requires DistinctHashes(blocks)
    ensures multiset(blocks)[x] <= 1
  {
    if blocks != [] {
      var n := |blocks| - 1;
      OnceOnly(blocks[..n], x);
      assert blocks == blocks[..n] + [blocks[n]];
      assert blocks[n] !in blocks[..n];
    }
  }

  /** So a tie gives a listing with another ledger. */
  lemma TieChangesLedger(env: Env, logs: map<string, seq<Block>>, ids: seq<string>, faults: ReadFaults, now: Launch)
    returns (others: seq<string>)
    requires !faults.listing && forall i, j | 0 <= i < j < |ids| :: ids[i] != ids[j]
    requires DistinctHashes(ReplayedBlocks(env.hash, logs, ids, faults))
    requires !NoTies(env.hash, logs, ids, faults)
    ensures SameListing(ids, others)
    ensures ReplayBook(env, logs, others, faults, now).chain != ReplayBook(env, logs, ids, faults, now).chain
  {
    hide ReplayBook, DistinctHashes, TakenFrom, Fronted, ReplayedBlocks, SameListing;
    var m, k, x, y := FindTie(env.hash, logs, ids, faults);
    others := Fronted(ids, k);
    FrontedIsSame(ids, k);
    ReplayedSameBlocks(env.hash, logs, ids, others, faults);
    SameBlocksDistinct(ReplayedBlocks(env.hash, logs, ids, faults), ReplayedBlocks(env.hash, logs, others, faults));
    TieShows(env, logs, ids, faults, now, m, k, x, y);
  }

  lemma FindTie(hash: Preimage -> string, logs: map<string, seq<Block>>, ids: seq<string>, faults: ReadFaults)
    returns (m: nat, k: nat, x: Block, y: Block)
    requires !NoTies(hash, logs, ids, faults)
    ensures m < k < |ids|
    ensures x in TakenFrom(hash, logs, faults, ids[m]) && y in TakenFrom(hash, logs, faults, ids[k])
    ensures x.timestamp == y.timestamp
  {
    hide TakenFrom;
    var p, q, x', y' :|
      && p in ids && q in ids && p != q
      && x' in TakenFrom(hash, logs, faults, p) && y' in TakenFrom(hash, logs, faults, q)
      && x'.timestamp == y'.timestamp;
    m :| m < |ids| && ids[m] == p;
    k :| k < |ids| && ids[k] == q;
    x, y := x', y';
    if k < m {
      m, k, x, y := k, m, y', x';
    }
  }

  /** Exactly when the ledger does not depend on the order of the listing, for blocks that all
      carry different hashes: when no blocks of different players share a timestamp. */
  lemma LedgerIgnoresOrderIff(env: Env, logs: map<string, seq<Block>>, ids: seq<string>, faults: ReadFaults,
                              now: Launch)
    requires !faults.listing && forall i, j | 0 <= i < j < |ids| :: ids[i] != ids[j]
    requires DistinctHashes(ReplayedBlocks(env.hash, logs, ids, faults))
    ensures (forall others | SameListing(ids, others) ::
               ReplayBook(env, logs, others, faults, now).chain == ReplayBook(env, logs, ids, faults, now).chain)
            <==> NoTies(env.hash, logs, ids, faults)
  {
    hide SortByTime, DedupByHash, ApplyBlocks, DistinctHashes, NoTies, ReplayedBlocks, SameListing;
    if NoTies(env.hash, logs, ids, faults) {
      forall others | SameListing(ids, others)
        ensures ReplayBook(env, logs, others, faults, now).chain == ReplayBook(env, logs, ids, faults, now).chain
      {
        SortIgnoresListingOrder(env.hash, logs, ids, others, faults);
      }
    } else {
      var others := TieChangesLedger(env, logs, ids, faults, now);
    }
  }
}

/** `verify_player_blocks`: which blocks of one player's log a restart believes. */
module LogVerifier {
  import opened Blockchain

  /** The hash a log that has verified `blocks` on top of `tip` must continue. */
  function TipAfter(tip: string, blocks: seq<Block>): string {
    if blocks == [] then tip else blocks[|blocks| - 1].blockHash
  }

  /** One pass over a log: a block is kept when it continues what has been kept so far. */
  function Verified(hash: Preimage -> string, tip: string, blocks: seq<Block>): seq<Block> {
    if blocks == [] then []
    else
      var before := Verified(hash, tip, blocks[..|blocks| - 1]);
      var b := blocks[|blocks| - 1];
      if Accepts(hash, TipAfter(tip, before), b) then before + [b] else before
  }

  /** The blocks the pass set aside. */
  function Quarantined(hash: Preimage -> string, tip: string, blocks: seq<Block>): seq<Block> {
    if blocks == [] then []
    else
      var init, b := blocks[..|blocks| - 1], blocks[|blocks| - 1];
      var before := Quarantined(hash, tip, init);
      if Accepts(hash, TipAfter(tip, Verified(hash, tip, init)), b) then before else before + [b]
  }

  /** The source pushes each block on a fresh chain, rechecks the whole chain, and pops the
      block again if the check fails; that is the one pass above. */
  method VerifyPlayerBlocks(hash: Preimage -> string, blocks: seq<Block>, now: string, version: string)
    returns (verified: seq<Block>, quarantined: seq<Block>)
    ensures verified == Verified(hash, GENESIS_HASH, blocks)
    ensures quarantined == Quarantined(hash, GENESIS_HASH, blocks)
  {
    verified, quarantined := [], [];
    var chain := new Blockchain(now, version);
    for i := 0 to |blocks|
      invariant verified == Verified(hash, GENESIS_HASH, blocks[..i])
      invariant quarantined == Quarantined(hash, GENESIS_HASH, blocks[..i])
      invariant chain.chain == [GenesisBlock(now, version)] + verified
      invariant ValidChain(hash, chain.chain)
      invariant fresh(chain)
    {
      var block := blocks[i];
      assert blocks[..i + 1][..i] == blocks[..i];
      ghost var before := chain.chain;
      chain.chain := chain.chain + [block];
      var valid := chain.IsValidChain(hash);
      ValidExtension(hash, before, block);
      assert before[|before| - 1].blockHash == TipAfter(GENESIS_HASH, verified);
      if valid {
        verified := verified + [block];
      } else {
        chain.chain := chain.chain[..|chain.chain| - 1];
        quarantined := quarantined + [block];
      }
    }
    assert blocks[..|blocks|] == blocks;
  }

  /** Rechecking a chain that was valid costs nothing new but the last link. */
  lemma ValidExtension(hash: Preimage -> string, chain: seq<Block>, b: Block)
    requires chain != [] && ValidChain(hash, chain)
    ensures ValidChain(hash, chain + [b]) <==> Accepts(hash, chain[|chain| - 1].blockHash, b)
  {
    var longer := chain + [b];
    assert forall i | 0 <= i < |chain| :: longer[i] == chain[i];
    assert longer[|chain|] == b;
  }

  /** `blocks` continue the hash `tip` one after the other. */
  predicate Continues(hash: Preimage -> string, tip: string, blocks: seq<Block>) {
    forall i | 0 <= i < |blocks| :: Accepts(hash, TipAfter(tip, blocks[..i]), blocks[i])
  }

  lemma ContinuesOne(hash: Preimage -> string, tip: string, blocks: seq<Block>, b: Block)
    ensures Continues(hash, tip, blocks + [b])
            <==> Continues(hash, tip, blocks) && Accepts(hash, TipAfter(tip, blocks), b)
  {
    var longer := blocks + [b];
    assert forall i | 0 <= i <= |blocks| :: longer[..i] == blocks[..i];
    assert blocks[..|blocks|] == blocks;
    if Continues(hash, tip, longer) {
      assert Accepts(hash, TipAfter(tip, longer[..|blocks|]), longer[|blocks|]);
      forall i | 0 <= i < |blocks|
        ensures Accepts(hash, TipAfter(tip, blocks[..i]), blocks[i])
      {
        assert Accepts(hash, TipAfter(tip, longer[..i]), longer[i]);
      }
    }
  }

  /** A chain is valid when what follows its first block continues the first block. */
  lemma {:induction false} ValidIsContinues(hash: Preimage -> string, chain: seq<Block>)
    requires chain != []
    ensures ValidChain(hash, chain) <==> Continues(hash, chain[0].blockHash, chain[1..])
  {
    var tail := chain[1..];
    assert forall i | 0 <= i < |tail| :: TipAfter(chain[0].blockHash, tail[..i]) == chain[i].blockHash;
    if Continues(hash, chain[0].blockHash, tail) {
      forall i | 1 <= i < |chain|
        ensures Accepts(hash, chain[i - 1].blockHash, chain[i])
      {
        assert Accepts(hash, TipAfter(chain[0].blockHash, tail[..i - 1]), tail[i - 1]);
      }
    }
  }

  /** The verified part is valid from the tip. */
  lemma {:induction false} VerifiedContinues(hash: Preimage -> string, tip: string, blocks: seq<Block>)
    ensures Continues(hash, tip, Verified(hash, tip, blocks))
  {
    if blocks != [] {
      var init := blocks[..|blocks| - 1];
      VerifiedContinues(hash, tip, init);
      ContinuesOne(hash, tip, Verified(hash, tip, init), blocks[|blocks| - 1]);
    }
  }

  lemma TipAfterAppend(tip: string, a: seq<Block>, b: seq<Block>)
    ensures TipAfter(tip, a + b) == TipAfter(TipAfter(tip, a), b)
  {
    if b == [] {
      assert a + b == a;
    }
  }

  /** What one more block does to the two outputs. */
  lemma VerifiedOne(hash: Preimage -> string, tip: string, blocks: seq<Block>, b: Block)
    ensures var kept, aside := Verified(hash, tip, blocks), Quarantined(hash, tip, blocks);
      if Accepts(hash, TipAfter(tip, kept), b)
      then Verified(hash, tip, blocks + [b]) == kept + [b] && Quarantined(hash, tip, blocks + [b]) == aside
      else Verified(hash, tip, blocks + [b]) == kept && Quarantined(hash, tip, blocks + [b]) == aside + [b]
  {
    assert (blocks + [b])[..|blocks|] == blocks;
  }

  /** Verifying a concatenation verifies the second log on top of what the first left. */
  lemma {:induction false} VerifiedCompositional(hash: Preimage -> string, tip: string, a: seq<Block>, b: seq<Block>)
    ensures var mid := TipAfter(tip, Verified(hash, tip, a));
      && Verified(hash, tip, a + b) == Verified(hash, tip, a) + Verified(hash, mid, b)
      && Quarantined(hash, tip, a + b) == Quarantined(hash, tip, a) + Quarantined(hash, mid, b)
  {
    hide Accepts, TipAfter;
    if b == [] {
      assert a + b == a;
    } else {
      var init, last := b[..|b| - 1], b[|b| - 1];
      assert a + b == (a + init) + [last] && b == init + [last];
      VerifiedCompositional(hash, tip, a, init);
      var kept := Verified(hash, tip, a);
      var mid := TipAfter(tip, kept);
      TipAfterAppend(tip, kept, Verified(hash, mid, init));
      VerifiedOne(hash, tip, a + init, last);
      VerifiedOne(hash, mid, init, last);
    }
  }

  /** A log that already continues the tip is kept whole, and nothing else is. */
  lemma {:induction false} VerifiedKeepsChains(hash: Preimage -> string, tip: string, blocks: seq<Block>)
    ensures Verified(hash, tip, blocks) == blocks <==> Continues(hash, tip, blocks)
    ensures Continues(hash, tip, blocks) ==> Quarantined(hash, tip, blocks) == []
  {
    hide Accepts, Continues, TipAfter;
    VerifiedContinues(hash, tip, blocks);
    if Continues(hash, tip, blocks) && blocks != [] {
      var init, b := blocks[..|blocks| - 1], blocks[|blocks| - 1];
      assert blocks == init + [b];
      ContinuesOne(hash, tip, init, b);
      VerifiedKeepsChains(hash, tip, init);
    }
  }

  /** Verifying what was verified changes nothing. */
  lemma {:induction false} VerifiedIdempotent(hash: Preimage -> string, tip: string, blocks: seq<Block>)
    ensures var kept := Verified(hash, tip, blocks);
      Verified(hash, tip, kept) == kept && Quarantined(hash, tip, kept) == []
  {
    VerifiedContinues(hash, tip, blocks);
    VerifiedKeepsChains(hash, tip, Verified(hash, tip, blocks));
  }

  /** The entries of a sequence whose flag is `wanted`. */
  function Flagged(blocks: seq<Block>, flags: seq<bool>, wanted: bool): seq<Block>
    requires |blocks| == |flags|
  {
    if blocks == [] then []
    else
      var n := |blocks| - 1;
      Flagged(blocks[..n], flags[..n], wanted) + (if flags[n] == wanted then [blocks[n]] else [])
  }

  /** The two outputs share out the log in order: every block goes to exactly one of them. */
  lemma {:induction false} OutputsPartition(hash: Preimage -> string, tip: string, blocks: seq<Block>)
    returns (flags: seq<bool>)
    ensures |flags| == |blocks|
    ensures Flagged(blocks, flags, true) == Verified(hash, tip, blocks)
    ensures Flagged(blocks, flags, false) == Quarantined(hash, tip, blocks)
  {
    if blocks == [] {
      flags := [];
    } else {
      var n := |blocks| - 1;
      var before := OutputsPartition(hash, tip, blocks[..n]);
      flags := before + [Accepts(hash, TipAfter(tip, Verified(hash, tip, blocks[..n])), blocks[n])];
      assert flags[..n] == before;
    }
  }

  /** Nothing is verified out of nowhere. */
  lemma {:induction false} VerifiedIsFromLog(hash: Preimage -> string, tip: string, blocks: seq<Block>, b: Block)
    requires b in Verified(hash, tip, blocks)
    ensures b in blocks
  {
    var init := blocks[..|blocks| - 1];
    if b in Verified(hash, tip, init) {
      VerifiedIsFromLog(hash, tip, init, b);
    }
  }
}

/** The sled backend: ordered trees of byte keys.  Block logs come back in append order
    because keys are big-endian ids; claim sets come back sorted. */
module SledStorage {
  import opened Common
  import opened Order
  import opened Generator
  import opened Blockchain
  import opened Claims
  import opened ClaimLifecycle

  // ---------------------------------------------------------------- ordered trees

  datatype Entry<V> = Entry(key: seq<Byte>, value: V)

  /** A tree iterates its entries in strictly increasing key order. */
  predicate Ascending<V>(entries: seq<Entry<V>>) {
    forall i, j | 0 <= i < j < |entries| :: LexLess(entries[i].key, entries[j].key)
  }

  /** `tree.insert`: replace the value under the key, or put a new entry in its place. */
  function Insert<V>(entries: seq<Entry<V>>, key: seq<Byte>, value: V): seq<Entry<V>> {
    if entries == [] then [Entry(key, value)]
    else
      var n := |entries| - 1;
      if LexLess(entries[n].key, key) then entries + [Entry(key, value)]
      else if entries[n].key == key then entries[..n] + [Entry(key, value)]
      else Insert(entries[..n], key, value) + [entries[n]]
  }

  function Values<V>(entries: seq<Entry<V>>): (values: seq<V>)
    ensures |values| == |entries|
  {
    seq(|entries|, i requires 0 <= i < |entries| => entries[i].value)
  }

  /** Inserting keeps the order; the keys gain the new one. */
  lemma {:induction false} InsertKeepsOrder<V>(entries: seq<Entry<V>>, key: seq<Byte>, value: V)
    requires Ascending(entries)
    ensures Ascending(Insert(entries, key, value))
    ensures forall e | e in Insert(entries, key, value) :: e == Entry(key, value) || (e in entries && e.key != key)
  {
    hide LexLe;
    if entries != [] {
      var n := |entries| - 1;
      var init, last := entries[..n], entries[n];
      assert entries == init + [last];
      LexTotalOrder(last.key, key, last.key);
      if LexLess(last.key, key) {
        forall e | e in entries
          ensures LexLess(e.key, key)
        {
          LexTotalOrder(e.key, last.key, key);
          LexTotalOrder(key, last.key, key);
        }
      } else if last.key != key {
        InsertKeepsOrder(init, key, value);
        forall e | e in Insert(init, key, value)
          ensures LexLess(e.key, last.key)
        {
        }
      }
    }
  }

  /** A key the tree does not hold adds one entry. */
  lemma {:induction false} InsertNewKey<V>(entries: seq<Entry<V>>, key: seq<Byte>, value: V)
    requires forall e | e in entries :: e.key != key
    ensures multiset(Values(Insert(entries, key, value))) == multiset(Values(entries)) + multiset{value}
  {
    var added := Insert(entries, key, value);
    if entries == [] {
      assert Values(added) == [value];
    } else {
      var n := |entries| - 1;
      var init, last := entries[..n], entries[n];
      assert entries == init + [last];
      assert Values(entries) == Values(init) + [last.value];
      if LexLess(last.key, key) {
        assert Values(added) == Values(entries) + [value];
      } else {
        InsertNewKey(init, key, value);
        assert Values(added) == Values(Insert(init, key, value)) + [last.value];
      }
    }
  }

  // ------------------------------------------------------------------ u64 keys

  /** The big-endian bytes of a number. */
  function BigEndian(n: nat, width: nat): (bytes: seq<Byte>)
    ensures |bytes| == width
  {
    if width == 0 then [] else BigEndian(n / 256, width - 1) + [n % 256]
  }

  function FromBigEndian(bytes: seq<Byte>): nat {
    if bytes == [] then 0 else 256 * FromBigEndian(bytes[..|bytes| - 1]) + bytes[|bytes| - 1]
  }

  function Pow256(n: nat): nat {
    if n == 0 then 1 else 256 * Pow256(n - 1)
  }

  lemma {:induction false} BigEndianRoundTrip(n: nat, width: nat)
    requires n < Pow256(width)
    ensures FromBigEndian(BigEndian(n, width)) == n
  {
    if width > 0 {
      BigEndianRoundTrip(n / 256, width - 1);
    }
  }

  lemma {:induction false} LexAppend(x: seq<nat>, y: seq<nat>, p: nat, q: nat)
    requires |x| == |y|
    ensures LexLe(x + [p], y + [q]) <==> LexLess(x, y) || (x == y && p <= q)
  {
    if x == [] {
      assert x + [p] == [p] && y + [q] == [q];
    } else {
      LexAppend(x[1..], y[1..], p, q);
      assert (x + [p])[1..] == x[1..] + [p] && (y + [q])[1..] == y[1..] + [q];
      assert x == [x[0]] + x[1..] && y == [y[0]] + y[1..];
    }
  }

  /** On big-endian keys of one width byte order is number order. */
  lemma {:induction false} BigEndianOrder(a: nat, b: nat, width: nat)
    requires a < Pow256(width) && b < Pow256(width)
    ensures LexLe(BigEndian(a, width), BigEndian(b, width)) <==> a <= b
    ensures BigEndian(a, width) == BigEndian(b, width) <==> a == b
  {
    BigEndianRoundTrip(a, width);
    BigEndianRoundTrip(b, width);
    if width > 0 {
      BigEndianOrder(a / 256, b / 256, width - 1);
      LexAppend(BigEndian(a / 256, width - 1), BigEndian(b / 256, width - 1), a % 256, b % 256);
    }
  }

  const ID_WIDTH := 8

  function Key64(id: nat): seq<Byte> {
    BigEndian(id, ID_WIDTH)
  }

  lemma IdsFit(id: nat)
    requires id < NONCE_LIMIT
    ensures id < Pow256(ID_WIDTH)
  {
    assert Pow256(4) == 256 * 256 * 256 * 256;
  }

  /** A fresh id is inserted last. */
  lemma FreshIdGoesLast<V>(entries: seq<Entry<V>>, ids: seq<nat>, id: nat, value: V)
    requires |ids| == |entries| && id < NONCE_LIMIT
    requires forall i | 0 <= i < |ids| :: ids[i] < id && entries[i].key == Key64(ids[i])
    ensures Insert(entries, Key64(id), value) == entries + [Entry(Key64(id), value)]
  {
    if entries != [] {
      var n := |entries| - 1;
      IdsFit(id);
      IdsFit(ids[n]);
      BigEndianOrder(ids[n], id, ID_WIDTH);
    }
  }

  // ------------------------------------------------------------------ claim sets

  /** UTF-8 as the keys need it: different ids have different bytes. */
  ghost predicate Injective(utf8: string -> seq<Byte>) {
    forall a: string, b: string | utf8(a) == utf8(b) :: a == b
  }

  /** The tree after clearing it and inserting every claim under its id. */
  function ClaimEntries(utf8: string -> seq<Byte>, claims: seq<AchievementClaim>): seq<Entry<AchievementClaim>> {
    if claims == [] then []
    else
      var n := |claims| - 1;
      Insert(ClaimEntries(utf8, claims[..n]), utf8(claims[n].claimId), claims[n])
  }

  /** The comparison of `load_achievement_claims`. */
  predicate ClaimLe(utf8: string -> seq<Byte>, a: AchievementClaim, b: AchievementClaim) {
    a.clientSequence < b.clientSequence
    || (a.clientSequence == b.clientSequence && LexLe(utf8(a.claimId), utf8(b.claimId)))
  }

  function InsertClaim(utf8: string -> seq<Byte>, sorted: seq<AchievementClaim>, c: AchievementClaim)
    : seq<AchievementClaim>
  {
    if sorted == [] || ClaimLe(utf8, sorted[|sorted| - 1], c) then sorted + [c]
    else InsertClaim(utf8, sorted[..|sorted| - 1], c) + [sorted[|sorted| - 1]]
  }

  /** `sort_by` on (client_sequence, claim_id). */
  function SortClaims(utf8: string -> seq<Byte>, claims: seq<AchievementClaim>): seq<AchievementClaim> {
    if claims == [] then []
    else InsertClaim(utf8, SortClaims(utf8, claims[..|claims| - 1]), claims[|claims| - 1])
  }

  predicate ClaimsSorted(utf8: string -> seq<Byte>, claims: seq<AchievementClaim>) {
    forall i, j | 0 <= i < j < |claims| :: ClaimLe(utf8, claims[i], claims[j])
  }

  lemma ClaimOrder(utf8: string -> seq<Byte>, a: AchievementClaim, b: AchievementClaim, c: AchievementClaim)
    ensures ClaimLe(utf8, a, b) || ClaimLe(utf8, b, a)
    ensures ClaimLe(utf8, a, b) && ClaimLe(utf8, b, c) ==> ClaimLe(utf8, a, c)
    ensures ClaimLe(utf8, a, b) && ClaimLe(utf8, b, a) ==> utf8(a.claimId) == utf8(b.claimId)
  {
    LexTotalOrder(utf8(a.claimId), utf8(b.claimId), utf8(c.claimId));
  }

  lemma {:induction false} InsertClaimSorts(utf8: string -> seq<Byte>, sorted: seq<AchievementClaim>,
                                            c: AchievementClaim)
    requires ClaimsSorted(utf8, sorted)
    ensures ClaimsSorted(utf8, InsertClaim(utf8, sorted, c))
    ensures multiset(InsertClaim(utf8, sorted, c)) == multiset(sorted) + multiset{c}
  {
    hide ClaimLe;
    if sorted != [] {
      var n := |sorted| - 1;
      var init, last := sorted[..n], sorted[n];
      assert sorted == init + [last];
      ClaimOrder(utf8, last, c, c);
      if ClaimLe(utf8, last, c) {
        forall i | 0 <= i <= n
          ensures ClaimLe(utf8, sorted[i], c)
        {
          ClaimOrder(utf8, sorted[i], last, c);
        }
      } else {
        InsertClaimSorts(utf8, init, c);
        var inserted := InsertClaim(utf8, init, c);
        forall x | x in inserted
          ensures ClaimLe(utf8, x, last)
        {
          assert x in multiset(inserted);
          assert x in multiset(init) || x == c;
        }
      }
    }
  }

  lemma {:induction false} SortClaimsSorts(utf8: string -> seq<Byte>, claims: seq<AchievementClaim>)
    ensures ClaimsSorted(utf8, SortClaims(utf8, claims))
    ensures multiset(SortClaims(utf8, claims)) == multiset(claims)
  {
    if claims != [] {
      var n := |claims| - 1;
      SortClaimsSorts(utf8, claims[..n]);
      InsertClaimSorts(utf8, SortClaims(utf8, claims[..n]), claims[n]);
      assert claims == claims[..n] + [claims[n]];
    }
  }

  lemma {:induction false} EntriesHoldClaims(utf8: string -> seq<Byte>, claims: seq<AchievementClaim>)
    requires Injective(utf8) && DistinctClaims(claims)
    ensures Ascending(ClaimEntries(utf8, claims))
    ensures forall e | e in ClaimEntries(utf8, claims) :: e.value in claims && e.key == utf8(e.value.claimId)
    ensures multiset(Values(ClaimEntries(utf8, claims))) == multiset(claims)
  {
    if claims != [] {
      var n := |claims| - 1;
      var before, key := ClaimEntries(utf8, claims[..n]), utf8(claims[n].claimId);
      EntriesHoldClaims(utf8, claims[..n]);
      InsertKeepsOrder(before, key, claims[n]);
      forall e | e in before
        ensures e.key != key
      {
        assert e.value in claims[..n];
      }
      InsertNewKey(before, key, claims[n]);
      assert claims == claims[..n] + [claims[n]];
    }
  }

  /** What a load returns after a successful save. */
  function LoadedClaims(utf8: string -> seq<Byte>, claims: seq<AchievementClaim>): seq<AchievementClaim> {
    SortClaims(utf8, Values(ClaimEntries(utf8, claims)))
  }

  /** One byte string opens the other, or is smaller where they first differ. */
  ghost predicate BytesLe(a: seq<Byte>, b: seq<Byte>) {
    a <= b || exists k: nat :: k < |a| && k < |b| && a[..k] == b[..k] && a[k] < b[k]
  }

  /** Client sequences never go down, and where they stay the bytes of the ids go up. */
  ghost predicate InLoadOrder(utf8: string -> seq<Byte>, claims: seq<AchievementClaim>) {
    forall i, j | 0 <= i < j < |claims| ::
      && claims[i].clientSequence <= claims[j].clientSequence
      && (claims[i].clientSequence == claims[j].clientSequence ==>
            BytesLe(utf8(claims[i].claimId), utf8(claims[j].claimId)))
  }

  lemma SortedIsInOrder(utf8: string -> seq<Byte>, claims: seq<AchievementClaim>)
    ensures ClaimsSorted(utf8, claims) <==> InLoadOrder(utf8, claims)
  {
    hide LexLe, BytesLe;
    forall i, j | 0 <= i < j < |claims|
      ensures LexLe(utf8(claims[i].claimId), utf8(claims[j].claimId))
              <==> BytesLe(utf8(claims[i].claimId), utf8(claims[j].claimId))
    {
      LexIsBytes(utf8(claims[i].claimId), utf8(claims[j].claimId));
    }
    if ClaimsSorted(utf8, claims) {
      assert forall i, j | 0 <= i < j < |claims| :: ClaimLe(utf8, claims[i], claims[j]);
    }
    if InLoadOrder(utf8, claims) {
      assert forall i, j | 0 <= i < j < |claims| :: claims[i].clientSequence <= claims[j].clientSequence;
    }
  }

  lemma LexIsBytes(a: seq<Byte>, b: seq<Byte>)
    ensures LexLe(a, b) <==> BytesLe(a, b)
  {
    LexLeIff(a, b);
    if k: nat :| FirstDifference(a, b, k) {
      assert a[..k] == b[..k] && a[k] < b[k];
    }
    if k: nat :| k < |a| && k < |b| && a[..k] == b[..k] && a[k] < b[k] {
      assert FirstDifference(a, b, k);
    }
  }

  /** Saving and loading a claim set with distinct ids returns the same claims, by ascending
      client sequence and then by the bytes of the claim id; no other list of these claims is
      in that order. */
  lemma LoadIsSortedPermutation(utf8: string -> seq<Byte>, claims: seq<AchievementClaim>)
    requires Injective(utf8) && DistinctClaims(claims)
    ensures multiset(LoadedClaims(utf8, claims)) == multiset(claims)
    ensures InLoadOrder(utf8, LoadedClaims(utf8, claims))
    ensures forall other | multiset(other) == multiset(claims) && InLoadOrder(utf8, other) ::
              other == LoadedClaims(utf8, claims)
  {
    hide ClaimEntries, SortClaims, ClaimsSorted, InLoadOrder, DistinctClaims;
    EntriesHoldClaims(utf8, claims);
    SortClaimsSorts(utf8, Values(ClaimEntries(utf8, claims)));
    var loaded := LoadedClaims(utf8, claims);
    SortedIsInOrder(utf8, loaded);
    forall other | multiset(other) == multiset(claims) && InLoadOrder(utf8, other)
      ensures other == loaded
    {
      SortedIsInOrder(utf8, other);
      DistinctIsMultiset(claims, loaded);
      OneLoadOrder(utf8, other, loaded);
    }
  }

  lemma {:induction false} OneLoadOrder(utf8: string -> seq<Byte>, a: seq<AchievementClaim>, b: seq<AchievementClaim>)
    requires Injective(utf8) && DistinctClaims(b) && multiset(a) == multiset(b)
    requires ClaimsSorted(utf8, a) && ClaimsSorted(utf8, b)
    ensures a == b
  {
    hide ClaimLe, ClaimsSorted, Injective, DistinctClaims;
    SameSize(a, b);
    if a != [] {
      var n := |a| - 1;
      SameLastClaim(utf8, a, b);
      WithoutLast(a, b);
      PrefixInOrder(utf8, a, n);
      PrefixInOrder(utf8, b, n);
      OneLoadOrder(utf8, a[..n], b[..n]);
      assert a == a[..n] + [a[n]] && b == b[..n] + [b[n]];
    }
  }

  lemma SameSize(a: seq<AchievementClaim>, b: seq<AchievementClaim>)
    requires multiset(a) == multiset(b)
    ensures |a| == |b|
  {
    assert |a| == |multiset(a)| == |b|;
  }

  lemma SplitLast(claims: seq<AchievementClaim>)
    requires claims != []
    ensures var n := |claims| - 1; multiset(claims) == multiset(claims[..n]) + multiset{claims[n]}
  {
    assert claims == claims[..|claims| - 1] + [claims[|claims| - 1]];
  }

  lemma WithoutLast(a: seq<AchievementClaim>, b: seq<AchievementClaim>)
    requires multiset(a) == multiset(b) && |a| == |b| > 0 && a[|a| - 1] == b[|b| - 1]
    ensures multiset(a[..|a| - 1]) == multiset(b[..|b| - 1])
  {
    var n := |a| - 1;
    SplitLast(a);
    SplitLast(b);
    assert multiset(a[..n]) == multiset(a) - multiset{a[n]} == multiset(b[..n]);
  }

  lemma PrefixInOrder(utf8: string -> seq<Byte>, claims: seq<AchievementClaim>, n: nat)
    requires n <= |claims|
    ensures ClaimsSorted(utf8, claims) ==> ClaimsSorted(utf8, claims[..n])
    ensures DistinctClaims(claims) ==> DistinctClaims(claims[..n])
  {
  }

  lemma SameLastClaim(utf8: string -> seq<Byte>, a: seq<AchievementClaim>, b: seq<AchievementClaim>)
    requires Injective(utf8) && DistinctClaims(b) && multiset(a) == multiset(b) && |a| == |b| > 0
    requires ClaimsSorted(utf8, a) && ClaimsSorted(utf8, b)
    ensures a[|a| - 1] == b[|b| - 1]
  {
    hide ClaimLe;
    var n := |a| - 1;
    assert a[n] in multiset(b) && b[n] in multiset(a);
    var i :| 0 <= i <= n && a[i] == b[n];
    var j :| 0 <= j <= n && b[j] == a[n];
    if i < n && j < n {
      assert ClaimLe(utf8, a[i], a[n]) && ClaimLe(utf8, b[j], b[n]);
      ClaimOrder(utf8, a[n], b[n], a[n]);
    }
  }

  lemma DistinctIsMultiset(claims: seq<AchievementClaim>, other: seq<AchievementClaim>)
    requires DistinctClaims(claims) && multiset(claims) == multiset(other)
    ensures DistinctClaims(other)
  {
    forall i, j | 0 <= i < j < |other|
      ensures other[i].claimId != other[j].claimId
    {
      assert other == other[..i] + [other[i]] + other[i + 1..j] + [other[j]] + other[j + 1..];
      assert other[i] in multiset(claims) && other[j] in multiset(claims);
      if other[i] == other[j] {
        assert multiset(other)[other[i]] >= 2;
        OnceOnly(claims, other[i]);
      }
    }
  }

  lemma {:induction false} OnceOnly(claims: seq<AchievementClaim>, c: AchievementClaim)
    requires DistinctClaims(claims)
    ensures multiset(claims)[c] <= 1
  {
    if claims != [] {
      var n := |claims| - 1;
      OnceOnly(claims[..n], c);
      assert claims == claims[..n] + [claims[n]];
      assert claims[n] !in claims[..n];
    }
  }

  function Lookup(claims: seq<AchievementClaim>, claimId: string): Option<AchievementClaim> {
    var found := FindClaim(claims, claimId);
    if found.Some? then Some(claims[found.value]) else None
  }

  /** Looking a claim up by id gives on the loaded set what it gave on the saved list. */
  lemma LookupAgrees(utf8: string -> seq<Byte>, claims: seq<AchievementClaim>, claimId: string)
    requires Injective(utf8) && DistinctClaims(claims)
    ensures Lookup(LoadedClaims(utf8, claims), claimId) == Lookup(claims, claimId)
    ensures DistinctClaims(LoadedClaims(utf8, claims))
  {
    var loaded := LoadedClaims(utf8, claims);
    assert multiset(loaded) == multiset(claims) by { LoadIsSortedPermutation(utf8, claims); }
    DistinctIsMultiset(claims, loaded);
    SameClaimSameLookup(claims, loaded, claimId);
    SameClaimSameLookup(loaded, claims, claimId);
  }

  lemma SameClaimSameLookup(a: seq<AchievementClaim>, b: seq<AchievementClaim>, claimId: string)
    requires DistinctClaims(b) && multiset(a) == multiset(b)
    ensures Lookup(a, claimId).Some? ==> Lookup(b, claimId) == Lookup(a, claimId)
  {
    var found := FindClaim(a, claimId);
    if found.Some? {
      var c := a[found.value];
      assert c in multiset(b);
      var j :| 0 <= j < |b| && b[j] == c;
      assert FindClaim(b, claimId).Some?;
    }
  }

  // ----------------------------------------------------------------- the backend

  /** How far an append gets before storage fails. */
  datatype AppendFault = NoFault | BeforeInsert | AfterInsert | AfterHeight | AfterHash

  class SledLedgerStorage {
    /** One tree per player, and the two head entries of the meta tree per player. */
    var trees: map<string, seq<Entry<Block>>>
    var heights: map<string, seq<Byte>>
    var headHashes: map<string, string>
    var claimTrees: map<string, seq<Entry<AchievementClaim>>>
    /** Ids below this one have been generated. */
    ghost var nextId: nat
    /** The id behind every key. */
    ghost var ids: map<string, seq<nat>>

    function EntriesOf(player: string): seq<Entry<Block>>
      reads this`trees
    {
      if player in trees then trees[player] else []
    }

    ghost function IdsOf(player: string): seq<nat>
      reads this`ids
    {
      if player in ids then ids[player] else []
    }

    /** Keys are the big-endian bytes of ids that grew from entry to entry. */
    ghost predicate KeysInv(player: string)
      reads this`trees, this`ids, this`nextId
    {
      var entries, keys := EntriesOf(player), IdsOf(player);
      && |keys| == |entries|
      && (forall i | 0 <= i < |keys| :: keys[i] < nextId && entries[i].key == Key64(keys[i]))
      && |entries| <= nextId
    }

    ghost predicate Valid()
      reads this
    {
      && nextId < NONCE_LIMIT
      && (forall p: string :: KeysInv(p))
      && (forall p: string :: Height(p) <= |Log(p)|)
      && (forall p | p in heights :: |heights[p]| == 8)
    }

    /** The blocks of a player in key order. */
    function Log(player: string): seq<Block>
      reads this`trees
    {
      Values(EntriesOf(player))
    }

    /** The stored head height, zero when there is none. */
    function Height(player: string): nat
      reads this`heights
    {
      if player in heights then FromBigEndian(heights[player]) else 0
    }

    /** The head describes the log: its length, and the hash of its last block. */
    ghost predicate HeadInStep(player: string)
      reads this
    {
      && Height(player) == |Log(player)|
      && (Log(player) != [] ==>
            player in headHashes && headHashes[player] == Log(player)[|Log(player)| - 1].blockHash)
    }

    constructor ()
      ensures Valid()
      ensures forall p: string :: Log(p) == [] && HeadInStep(p)
    {
      trees, heights, headHashes, claimTrees := map[], map[], map[], map[];
      nextId, ids := 0, map[];
    }

    /** `append_block`, with a fresh id from `generate_id`: the block lands at the end of the
        log or nowhere, and the head never runs ahead of the log. */
    method AppendBlock(player: string, block: Block, id: nat, fault: AppendFault) returns (r: Result<()>)
      requires Valid() && nextId <= id < NONCE_LIMIT - 1
      modifies this
      ensures Valid() && nextId == id + 1
      ensures r.Ok? <==> fault.NoFault?
      ensures Log(player) == old(Log(player)) + (if fault.BeforeInsert? then [] else [block])
      ensures forall p: string :: p != player ==> Log(p) == old(Log(p))
      ensures forall p: string | p != player :: old(HeadInStep(p)) ==> HeadInStep(p)
      ensures fault.NoFault? && old(HeadInStep(player)) ==> HeadInStep(player)
      ensures Height(player) == old(Height(player)) + (if fault.BeforeInsert? || fault.AfterInsert? then 0 else 1)
      ensures claimTrees == old(claimTrees)
    {
      if fault.BeforeInsert? {
        SkipId(id);
        return Err(Other);
      }
      InsertBlock(player, block, id);
      if fault.AfterInsert? {
        return Err(Other);
      }
      r := UpdateHead(player, block, fault);
    }

    /** An id that was generated but not used. */
    ghost method SkipId(id: nat)
      requires Valid() && nextId <= id < NONCE_LIMIT - 1
      modifies this`nextId
      ensures Valid() && nextId == id + 1
    {
      nextId := id + 1;
      forall p: string
        ensures KeysInv(p)
      {
        assert old(KeysInv(p));
      }
    }

    /** The tree insertion of an append. */
    method InsertBlock(player: string, block: Block, id: nat)
      requires Valid() && nextId <= id < NONCE_LIMIT - 1
      modifies this`trees, this`ids, this`nextId
      ensures Valid() && nextId == id + 1
      ensures Log(player) == old(Log(player)) + [block]
      ensures forall p: string :: p != player ==> Log(p) == old(Log(p))
    {
      var entries := EntriesOf(player);
      ghost var keys := IdsOf(player);
      assert KeysInv(player);
      SkipId(id);
      FreshIdGoesLast(entries, keys, id, block);
      trees := trees[player := Insert(entries, Key64(id), block)];
      ids := ids[player := keys + [id]];
      assert Log(player) == old(Log(player)) + [block];
      assert KeysInv(player);
      forall p: string | p != player
        ensures KeysInv(p) && Log(p) == old(Log(p))
      {
        assert EntriesOf(p) == old(EntriesOf(p)) && IdsOf(p) == old(IdsOf(p));
        assert old(KeysInv(p));
      }
    }

    /** `update_head` */
    method UpdateHead(player: string, block: Block, fault: AppendFault) returns (r: Result<()>)
      requires Valid() && Height(player) < |Log(player)|
      requires !fault.BeforeInsert? && !fault.AfterInsert?
      modifies this`heights, this`headHashes
      ensures Valid()
      ensures r.Ok? <==> fault.NoFault?
      ensures Height(player) == old(Height(player)) + 1
      ensures !fault.AfterHeight? ==> player in headHashes && headHashes[player] == block.blockHash
      ensures forall p: string | p != player ::
                Height(p) == old(Height(p)) && (p in headHashes <==> p in old(headHashes))
                && (p in headHashes ==> headHashes[p] == old(headHashes)[p])
    {
      hide FromBigEndian, BigEndian, Pow256, Values;
      assert KeysInv(player);
      var currentHeight := if player in heights then FromBigEndian(heights[player]) else 0;
      var nextHeight := currentHeight + 1;
      IdsFit(currentHeight);
      heights := heights[player := BigEndian(nextHeight, 8)];
      HeightFits(nextHeight);
      BigEndianRoundTrip(nextHeight, 8);
      if fault.AfterHeight? {
        return Err(Other);
      }
      headHashes := headHashes[player := block.blockHash];
      if fault.AfterHash? {
        return Err(Other);
      }
      return Ok(());
    }

    /** `load_blocks` */
    method LoadBlocks(player: string) returns (blocks: seq<Block>)
      ensures blocks == Log(player)
    {
      blocks := [];
      var entries := EntriesOf(player);
      for i := 0 to |entries|
        invariant blocks == Values(entries)[..i]
      {
        blocks := blocks + [entries[i].value];
      }
    }

    /** `save_achievement_claims`, when storage does not fail. */
    method SaveClaims(utf8: string -> seq<Byte>, player: string, claims: seq<AchievementClaim>)
      modifies this`claimTrees
      ensures claimTrees == old(claimTrees)[player := ClaimEntries(utf8, claims)]
    {
      claimTrees := claimTrees[player := []];
      for i := 0 to |claims|
        invariant claimTrees == old(claimTrees)[player := ClaimEntries(utf8, claims[..i])]
      {
        assert claims[..i + 1][..i] == claims[..i];
        claimTrees := claimTrees[player := Insert(claimTrees[player], utf8(claims[i].claimId), claims[i])];
      }
      assert claims[..|claims|] == claims;
    }

    /** `load_achievement_claims` */
    method LoadClaims(utf8: string -> seq<Byte>, player: string) returns (claims: seq<AchievementClaim>)
      ensures claims == SortClaims(utf8, Values(if player in claimTrees then claimTrees[player] else []))
    {
      claims := [];
      var entries := if player in claimTrees then claimTrees[player] else [];
      for i := 0 to |entries|
        invariant claims == Values(entries)[..i]
      {
        claims := claims + [entries[i].value];
      }
      assert claims == Values(entries);
      claims := SortClaims(utf8, claims);
    }
  }

  lemma HeightFits(height: nat)
    requires height <= NONCE_LIMIT - 1
    ensures height < Pow256(8)
  {
    IdsFit(height);
  }
}

/** What is assumed of hashes can be met: one text hash and one writer for transactions that
    give a minable block hash without collisions, at every version. */
module HashWitness {
  import opened Common
  import opened Text
  import opened BitWords
  import opened BitVectors
  import opened Blockchain
  import opened HashInput

  // ------------------------------------------------------- self-delimiting texts

  function Quoted(s: string): string {
    if s == "" then "." else ['c', s[0]] + Quoted(s[1..])
  }

  lemma {:induction false} QuotedCut(a: string, x: string, b: string, y: string)
    requires Quoted(a) + x == Quoted(b) + y
    ensures a == b && x == y
  {
    var s, t := Quoted(a) + x, Quoted(b) + y;
    assert s[0] == t[0];
    if a == "" {
      assert x == s[1..] && y == t[1..];
    } else {
      assert s[1] == a[0] && t[1] == b[0];
      assert s[2..] == Quoted(a[1..]) + x && t[2..] == Quoted(b[1..]) + y;
      QuotedCut(a[1..], x, b[1..], y);
      assert a == [a[0]] + a[1..] && b == [b[0]] + b[1..];
    }
  }

  function Written(fields: seq<string>): string {
    if fields == [] then "." else ['f'] + Quoted(fields[0]) + Written(fields[1..])
  }

  lemma {:induction false} WrittenCut(a: seq<string>, x: string, b: seq<string>, y: string)
    requires Written(a) + x == Written(b) + y
    ensures a == b && x == y
  {
    hide Quoted;
    var s, t := Written(a) + x, Written(b) + y;
    assert s[0] == t[0];
    if a == [] {
      assert x == s[1..] && y == t[1..];
    } else {
      assert s[1..] == Quoted(a[0]) + (Written(a[1..]) + x);
      assert t[1..] == Quoted(b[0]) + (Written(b[1..]) + y);
      hide Written;
      QuotedCut(a[0], Written(a[1..]) + x, b[0], Written(b[1..]) + y);
      WrittenCut(a[1..], x, b[1..], y);
      assert a == [a[0]] + a[1..] && b == [b[0]] + b[1..];
    }
  }

  lemma WrittenInjective(a: seq<string>, b: seq<string>)
    requires Written(a) == Written(b)
    ensures a == b
  {
    assert Written(a) + "" == Written(b) + "";
    WrittenCut(a, "", b, "");
  }

  // ---------------------------------------------------------------- transactions

  function OptionText(o: Option<string>): string {
    match o case None => "" case Some(s) => ['s'] + s
  }

  lemma OptionTextInjective(a: Option<string>, b: Option<string>)
    requires OptionText(a) == OptionText(b)
    ensures a == b
  {
    if a.Some? && b.Some? {
      assert a.value == OptionText(a)[1..] == OptionText(b)[1..] == b.value;
    }
  }

  function LaneTexts(lanes: seq<Word>): (texts: seq<string>)
    ensures |texts| == |lanes|
    ensures forall i | 0 <= i < |lanes| :: texts[i] == Decimal(lanes[i])
  {
    seq(|lanes|, i requires 0 <= i < |lanes| => Decimal(lanes[i]))
  }

  function VectorText(v: BitVec): string {
    Written([Decimal(v.dim)] + LaneTexts(v.lanes))
  }

  lemma VectorTextInjective(a: BitVec, b: BitVec)
    requires VectorText(a) == VectorText(b)
    ensures a == b
  {
    var s, t := [Decimal(a.dim)] + LaneTexts(a.lanes), [Decimal(b.dim)] + LaneTexts(b.lanes);
    WrittenInjective(s, t);
    DecimalInjective(a.dim, b.dim);
    forall i | 0 <= i < |a.lanes|
      ensures a.lanes[i] == b.lanes[i]
    {
      assert s[i + 1] == t[i + 1];
      DecimalInjective(a.lanes[i], b.lanes[i]);
    }
  }

  function DetailsFields(d: TransactionData): seq<string> {
    match d
    case EntitlementGranted(e) =>
      ["e", e.developer, e.game, e.entitlementId, Decimal(e.version), e.itemType, e.itemId, Decimal(e.quantity),
       e.metadata, OptionText(e.expirationDate)]
    case AchievementAwarded(a) =>
      ["a", a.developer, a.game, a.achievementId, Decimal(a.version), a.achievementName, a.criteria,
       a.timestampEarned, a.metadata]
    case ProfileChanged(c) =>
      ["p", c.profileHash, c.profile.playerId, c.profile.name, VectorText(c.profile.profileVec)]
  }

  lemma DetailsInjective(a: TransactionData, b: TransactionData)
    requires DetailsFields(a) == DetailsFields(b)
    ensures a == b
  {
    hide VectorText, OptionText, Decimal;
    var s, t := DetailsFields(a), DetailsFields(b);
    assert s[0] == t[0];
    match a {
      case EntitlementGranted(e) =>
        var e' := b.entitlement;
        assert s[1] == t[1] && s[2] == t[2] && s[3] == t[3] && s[4] == t[4] && s[5] == t[5];
        assert s[6] == t[6] && s[7] == t[7] && s[8] == t[8] && s[9] == t[9];
        DecimalInjective(e.version, e'.version);
        DecimalInjective(e.quantity, e'.quantity);
        OptionTextInjective(e.expirationDate, e'.expirationDate);
      case AchievementAwarded(c) =>
        assert s[1] == t[1] && s[2] == t[2] && s[3] == t[3] && s[4] == t[4];
        assert s[5] == t[5] && s[6] == t[6] && s[7] == t[7] && s[8] == t[8];
        DecimalInjective(c.version, b.achievement.version);
      case ProfileChanged(c) =>
        assert s[1] == t[1] && s[2] == t[2] && s[3] == t[3] && s[4] == t[4];
        VectorTextInjective(c.profile.profileVec, b.change.profile.profileVec);
    }
  }

  function TransactionText(t: Transaction): string {
    Written([t.transactionId, t.playerId, t.transactionType, t.timestamp, t.dataHash, t.signature,
             Written(DetailsFields(t.details))])
  }

  lemma TransactionTextInjective(a: Transaction, b: Transaction)
    requires TransactionText(a) == TransactionText(b)
    ensures a == b
  {
    hide Written, DetailsFields;
    var s := [a.transactionId, a.playerId, a.transactionType, a.timestamp, a.dataHash, a.signature,
              Written(DetailsFields(a.details))];
    var t := [b.transactionId, b.playerId, b.transactionType, b.timestamp, b.dataHash, b.signature,
              Written(DetailsFields(b.details))];
    WrittenInjective(s, t);
    assert s[0] == t[0] && s[1] == t[1] && s[2] == t[2] && s[3] == t[3];
    assert s[4] == t[4] && s[5] == t[5] && s[6] == t[6];
    WrittenInjective(DetailsFields(a.details), DetailsFields(b.details));
    DetailsInjective(a.details, b.details);
  }

  function TransactionTexts(txns: seq<Transaction>): (texts: seq<string>)
    ensures |texts| == |txns|
    ensures forall i | 0 <= i < |txns| :: texts[i] == TransactionText(txns[i])
  {
    seq(|txns|, i requires 0 <= i < |txns| => TransactionText(txns[i]))
  }

  function Writer(txns: seq<Transaction>): string {
    ['['] + Written(TransactionTexts(txns))
  }

  lemma WriterIsSelfDelimiting()
    ensures SelfDelimiting(Writer)
  {
    hide Written, TransactionText;
    forall a, x, b, y | SameTail(Writer, a, x, b, y)
      ensures a == b
    {
      var s, t := TransactionTexts(a), TransactionTexts(b);
      assert (Writer(a) + x)[1..] == Written(s) + x && (Writer(b) + y)[1..] == Written(t) + y;
      WrittenCut(s, x, t, y);
      forall i | 0 <= i < |a|
        ensures a[i] == b[i]
      {
        assert s[i] == t[i];
        TransactionTextInjective(a[i], b[i]);
      }
    }
  }

  // --------------------------------------------------------------------- the hash

  /** The numerals of the characters, each closed by a semicolon. */
  function Numerals(s: string): string {
    if s == "" then "" else Decimal(s[0] as nat) + [';'] + Numerals(s[1..])
  }

  lemma {:induction false} NumeralsInjective(a: string, b: string)
    requires Numerals(a) == Numerals(b)
    ensures a == b
  {
    if a != "" && b != "" {
      DecimalHasOnlyDigits(a[0] as nat);
      DecimalHasOnlyDigits(b[0] as nat);
      FirstCut(';', Decimal(a[0] as nat), Numerals(a[1..]), Decimal(b[0] as nat), Numerals(b[1..]));
      DecimalInjective(a[0] as nat, b[0] as nat);
      NumeralsInjective(a[1..], b[1..]);
      assert a == [a[0]] + a[1..] && b == [b[0]] + b[1..];
    }
  }

  lemma {:induction false} NumeralsArePlain(s: string)
    ensures '[' !in Numerals(s)
  {
    if s != "" {
      DecimalHasOnlyDigits(s[0] as nat);
      NumeralsArePlain(s[1..]);
    }
  }

  function Digest(s: string): string {
    "00" + Numerals(s)
  }

  /** One block hash meets everything the theorems assume, at every version at once. */
  lemma SomeHashMeetsTheAssumptions() returns (hash: Hasher)
    ensures Binding(hash)
    ensures forall version :: CollisionFree(hash, version)
  {
    hide Writer, Numerals;
    var h := Concatenated(Digest, Writer);
    WriterIsSelfDelimiting();
    forall s: string
      ensures Digest(s) != GENESIS_HASH && '[' !in Digest(s) && |Digest(s)| >= 2 && Digest(s)[..2] == "00"
    {
      NumeralsArePlain(s);
    }
    forall s: string, t: string | Digest(s) == Digest(t)
      ensures s == t
    {
      assert Numerals(s) == Digest(s)[2..] == Digest(t)[2..] == Numerals(t);
      NumeralsInjective(s, t);
    }
    ConcatenatedIsBinding(Digest, Writer);
    forall version
      ensures CollisionFree(h, version)
    {
      ConcatenatedIsCollisionFree(Digest, Writer, version);
    }
    forall p: Preimage
      ensures SomeNonceWins(h, p)
    {
      var q := p.(nonce := 0);
      assert h(q) == Digest(Input(Writer, q));
      assert Wins(h, p, 0);
    }
    hash := h;
  }
}

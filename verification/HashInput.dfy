/** What `calculate_hash` feeds to SHA-256: the five fields written one after another with
    no delimiter.  Here is why that text still determines the fields for blocks of one
    application version, and why it does not across versions. */
module HashInput {
  import opened Common
  import opened Text
  import opened Blockchain

  /** The hashed text. */
  function Input(json: seq<Transaction> -> string, p: Preimage): string {
    p.previousBlockHash + (json(p.transactions) + (p.timestamp + (p.appVersion + Decimal(p.nonce))))
  }

  /** `calculate_hash` over a text hash and a JSON writer. */
  function Concatenated(sha: string -> string, json: seq<Transaction> -> string): Preimage -> string {
    (p: Preimage) => sha(Input(json, p))
  }

  ghost predicate SameTail(json: seq<Transaction> -> string, a: seq<Transaction>, x: string,
                           b: seq<Transaction>, y: string)
  {
    json(a) + x == json(b) + y
  }

  /** A JSON array opens with a bracket, and its end is found without looking past it. */
  ghost predicate SelfDelimiting(json: seq<Transaction> -> string) {
    && (forall a: seq<Transaction> :: json(a) != "" && json(a)[0] == '[')
    && (forall a, x, b, y | SameTail(json, a, x, b, y) :: a == b)
  }

  /** A preimage the service can produce at some version, for a `u64` nonce. */
  predicate Producible(p: Preimage) {
    WellStamped(p) && p.nonce < NONCE_LIMIT
  }

  /** Exactly what the text determines, at any two versions: the previous hash, the
      transactions, the timestamp, and the version and nonce run together. */
  lemma InputDetermines(json: seq<Transaction> -> string, p: Preimage, q: Preimage)
    requires SelfDelimiting(json)
    requires WellStamped(p) && WellStamped(q)
    ensures Input(json, p) == Input(json, q)
            <==> && p.previousBlockHash == q.previousBlockHash
                 && p.transactions == q.transactions
                 && p.timestamp == q.timestamp
                 && p.appVersion + Decimal(p.nonce) == q.appVersion + Decimal(q.nonce)
  {
    hide SelfDelimiting, IsStamp, Decimal;
    if Input(json, p) == Input(json, q) {
      var vp, vq := p.appVersion + Decimal(p.nonce), q.appVersion + Decimal(q.nonce);
      HashAndJsonCut(json, p.previousBlockHash, p.transactions, p.timestamp + vp,
                     q.previousBlockHash, q.transactions, q.timestamp + vq);
      StampCut(p.timestamp, vp, q.timestamp, vq);
    }
  }

  /** So the text determines the preimage once the version is fixed. */
  lemma InputInjective(json: seq<Transaction> -> string, version: string, p: Preimage, q: Preimage)
    requires SelfDelimiting(json)
    requires Proper(p, version) && Proper(q, version)
    requires Input(json, p) == Input(json, q)
    ensures p == q
  {
    hide SelfDelimiting, IsStamp, Decimal;
    InputDetermines(json, p, q);
    var vp, vq := version + Decimal(p.nonce), version + Decimal(q.nonce);
    assert Decimal(p.nonce) == vp[|version|..] == vq[|version|..] == Decimal(q.nonce);
    DecimalInjective(p.nonce, q.nonce);
  }

  /** The number the version ends in, from its last nonzero digit on; none when its trailing
      digits are zeros only. */
  function TrailingNumber(version: string): Option<nat> {
    if version == "" then None
    else
      var n, last := |version| - 1, version[|version| - 1];
      if '1' <= last <= '9' then Some((last - '0') as nat)
      else if last != '0' then None
      else match TrailingNumber(version[..n]) case None => None case Some(k) => Some(10 * k)
  }

  /** It is a numeral the version ends in... */
  lemma {:induction false} TrailingNumberIsSuffix(version: string) returns (rest: string)
    requires TrailingNumber(version).Some?
    ensures TrailingNumber(version).value > 0
    ensures version == rest + Decimal(TrailingNumber(version).value)
  {
    var n, last := |version| - 1, version[|version| - 1];
    assert version == version[..n] + [last];
    if last == '0' {
      rest := TrailingNumberIsSuffix(version[..n]);
      var k := TrailingNumber(version[..n]).value;
      assert TrailingNumber(version).value == 10 * k;
      DecimalTimesTen(k);
      hide Decimal;
      assert version == (rest + Decimal(k)) + ['0'] == rest + (Decimal(k) + ['0']);
    } else {
      var d := (last - '0') as nat;
      assert Decimal(d) == [Digit(d)] == [last];
      rest := version[..n];
    }
  }

  lemma DecimalTimesTen(k: nat)
    requires k > 0
    ensures Decimal(10 * k) == Decimal(k) + ['0']
  {
    assert (10 * k) / 10 == k && (10 * k) % 10 == 0;
  }

  /** ... and the smallest positive one. */
  lemma {:induction false} TrailingNumberIsLeast(version: string, rest: string, m: nat)
    requires m > 0 && version == rest + Decimal(m)
    ensures TrailingNumber(version).Some? && TrailingNumber(version).value <= m
  {
    var n := |version| - 1;
    assert version[n] == Digit(m % 10) by { LastDigit(m); }
    if m % 10 == 0 {
      assert version[..n] == rest + Decimal(m / 10);
      TrailingNumberIsLeast(version[..n], rest, m / 10);
    }
  }

  lemma LastDigit(m: nat)
    ensures var s := Decimal(m); s[|s| - 1] == Digit(m % 10)
  {
  }

  /** A nonce that reads differently takes digits from the version, or gives some to it. */
  lemma OtherReading(version: string, nonce: nat, w: string, m: nat)
    requires version + Decimal(nonce) == w + Decimal(m) && nonce < 10 && m != nonce
    ensures m >= 10 && m % 10 == nonce && version == w + Decimal(m / 10)
  {
    var s := version + Decimal(nonce);
    LastDigit(m);
    assert s[|s| - 1] == Digit(nonce) == Digit(m % 10);
    assert m % 10 == nonce;
    assert Decimal(m) == Decimal(m / 10) + [Digit(m % 10)];
    assert s[..|s| - 1] == version == w + Decimal(m / 10);
  }

  /** A one-digit nonce, of a version that ends in no number that could be read as the first
      digits of a `u64` nonce. */
  predicate SingleReading(version: string, nonce: nat) {
    nonce < 10
    && (TrailingNumber(version).None? || 10 * TrailingNumber(version).value + nonce >= NONCE_LIMIT)
  }

  /** Another way to read the same version and nonce. */
  lemma SecondReading(version: string, nonce: nat) returns (w: string, m: nat)
    requires nonce < NONCE_LIMIT && !SingleReading(version, nonce)
    ensures m < NONCE_LIMIT && m != nonce
    ensures w + Decimal(m) == version + Decimal(nonce)
  {
    if nonce >= 10 {
      w, m := version + Decimal(nonce / 10), nonce % 10;
      assert version + (Decimal(nonce / 10) + [Digit(m)]) == (version + Decimal(nonce / 10)) + [Digit(m)];
    } else {
      var k := TrailingNumber(version).value;
      w := TrailingNumberIsSuffix(version);
      m := 10 * k + nonce;
      assert m / 10 == k && m % 10 == nonce;
      assert Decimal(m) == Decimal(k) + [Digit(nonce)];
      assert (w + Decimal(k)) + [Digit(nonce)] == w + (Decimal(k) + [Digit(nonce)]);
    }
  }

  lemma OnlyReading(version: string, nonce: nat, w: string, m: nat)
    requires SingleReading(version, nonce) && m < NONCE_LIMIT
    requires w + Decimal(m) == version + Decimal(nonce)
    ensures w == version && m == nonce
  {
    if m == nonce {
      var text := version + Decimal(nonce);
      assert version == text[..|text| - 1] == w;
    } else {
      OtherReading(version, nonce, w, m);
      TrailingNumberIsLeast(version, w, m / 10);
    }
  }

  /** Which preimages the text alone tells apart from all others, among all version strings
      and all `u64` nonces. */
  lemma DeterminedIff(json: seq<Transaction> -> string, p: Preimage)
    requires SelfDelimiting(json) && Producible(p)
    ensures (forall q | Producible(q) && Input(json, q) == Input(json, p) :: q == p)
            <==> SingleReading(p.appVersion, p.nonce)
  {
    hide SelfDelimiting, IsStamp, Input, Decimal, SingleReading;
    if SingleReading(p.appVersion, p.nonce) {
      forall q | Producible(q) && Input(json, q) == Input(json, p)
        ensures q == p
      {
        InputDetermines(json, q, p);
        OnlyReading(p.appVersion, p.nonce, q.appVersion, q.nonce);
      }
    } else {
      var w, m := SecondReading(p.appVersion, p.nonce);
      var q := p.(appVersion := w, nonce := m);
      InputDetermines(json, q, p);
      assert Producible(q) && q != p;
    }
  }

  /** The previous hash ends at the first bracket, the transactions where the JSON ends. */
  lemma HashAndJsonCut(json: seq<Transaction> -> string, g: string, a: seq<Transaction>, x: string,
                       h: string, b: seq<Transaction>, y: string)
    requires SelfDelimiting(json) && '[' !in g && '[' !in h
    requires g + (json(a) + x) == h + (json(b) + y)
    ensures g == h && a == b && x == y
  {
    var s, t := json(a), json(b);
    assert s == ['['] + s[1..] && t == ['['] + t[1..];
    assert g + (s + x) == g + ['['] + (s[1..] + x);
    assert h + (t + y) == h + ['['] + (t[1..] + y);
    FirstCut('[', g, s[1..] + x, h, t[1..] + y);
    assert s + x == ['['] + (s[1..] + x) && t + y == ['['] + (t[1..] + y);
    assert SameTail(json, a, x, b, y);
    assert x == (s + x)[|s|..] == (t + y)[|t|..] == y;
  }

  /** A timestamp ends where its text says it ends. */
  lemma StampCut(s: string, x: string, t: string, y: string)
    requires IsStamp(s) && IsStamp(t)
    requires s + x == t + y
    ensures s == t && x == y
  {
    var s0, t0 := s[..|s| - 6], t[..|t| - 6];
    assert "+00:00" == ['+'] + "00:00";
    assert s == s0 + "+00:00" && t == t0 + "+00:00";
    assert s + x == s0 + ['+'] + ("00:00" + x);
    assert t + y == t0 + ['+'] + ("00:00" + y);
    FirstCut('+', s0, "00:00" + x, t0, "00:00" + y);
    assert x == ("00:00" + x)[5..] == ("00:00" + y)[5..] == y;
  }

  /** So a collision-free text hash gives collision-free block hashes at every one version. */
  lemma ConcatenatedIsCollisionFree(sha: string -> string, json: seq<Transaction> -> string, version: string)
    requires SelfDelimiting(json)
    requires forall s: string, t: string | sha(s) == sha(t) :: s == t
    requires forall s: string :: sha(s) != GENESIS_HASH && '[' !in sha(s)
    ensures CollisionFree(Concatenated(sha, json), version)
  {
    var hash := Concatenated(sha, json);
    forall p: Preimage, q: Preimage | Proper(p, version) && Proper(q, version) && hash(p) == hash(q)
      ensures p == q
    {
      InputInjective(json, version, p, q);
    }
    assert forall p: Preimage :: hash(p) == sha(Input(json, p));
  }

  /** And across versions the hash still pins down everything but version and nonce. */
  lemma ConcatenatedIsBinding(sha: string -> string, json: seq<Transaction> -> string)
    requires SelfDelimiting(json)
    requires forall s: string, t: string | sha(s) == sha(t) :: s == t
    requires forall s: string :: sha(s) != GENESIS_HASH && '[' !in sha(s)
    ensures Binding(Concatenated(sha, json))
  {
    hide SelfDelimiting, WellStamped;
    var hash := Concatenated(sha, json);
    assert forall p: Preimage :: hash(p) == sha(Input(json, p));
    forall p, q | WellStamped(p) && WellStamped(q) && hash(p) == hash(q)
      ensures SameContent(p, q)
    {
      InputDetermines(json, p, q);
    }
  }

  /** Two releases that run together, for every hash and every JSON writer: nonce 12 of
      version 0.1.1 and nonce 2 of version 0.1.11. */
  lemma VersionAndNonceRunTogether(sha: string -> string, json: seq<Transaction> -> string, p: Preimage)
    requires p.appVersion == "0.1.1" && p.nonce == 12
    ensures var q := p.(appVersion := "0.1.11", nonce := 2);
      q != p && Concatenated(sha, json)(q) == Concatenated(sha, json)(p)
  {
    var q := p.(appVersion := "0.1.11", nonce := 2);
    assert Decimal(12) == Decimal(1) + [Digit(2)] == "12";
    assert Decimal(2) == "2";
    assert q.appVersion + Decimal(q.nonce) == p.appVersion + Decimal(p.nonce);
    assert Input(json, q) == Input(json, p);
  }
}

/** The achievement and entitlement registries: definitions kept under a string key
    `developer:game:id:vN`. */
module Registry {
  import opened Common
  import opened Text

  /** What a definition is looked up by. */
  datatype DefinitionId = DefinitionId(developer: string, game: string, id: string, version: nat)

  /** `key` */
  function Key(d: DefinitionId): string {
    d.developer + ":" + d.game + ":" + d.id + ":v" + Decimal(d.version)
  }

  predicate ColonFree(d: DefinitionId) {
    ':' !in d.developer && ':' !in d.game
  }

  lemma KeyShape(d: DefinitionId)
    ensures Key(d) == (d.developer + ":" + (d.game + ":" + d.id)) + ":" + ("v" + Decimal(d.version))
    ensures ':' !in "v" + Decimal(d.version)
  {
    DecimalHasOnlyDigits(d.version);
    var body := d.developer + ":" + d.game + ":" + d.id;
    assert body == d.developer + ":" + (d.game + ":" + d.id);
    assert ":v" == ":" + "v";
    assert Key(d) == body + ":v" + Decimal(d.version) == body + ":" + ("v" + Decimal(d.version));
  }

  /** Equal keys agree on the version and on everything before it. */
  lemma KeyParts(a: DefinitionId, b: DefinitionId)
    requires Key(a) == Key(b)
    ensures a.version == b.version
    ensures a.developer + ":" + (a.game + ":" + a.id) == b.developer + ":" + (b.game + ":" + b.id)
  {
    KeyShape(a);
    KeyShape(b);
    var va, vb := "v" + Decimal(a.version), "v" + Decimal(b.version);
    LastCut(':', a.developer + ":" + (a.game + ":" + a.id), va, b.developer + ":" + (b.game + ":" + b.id), vb);
    assert Decimal(a.version) == va[1..] == vb[1..] == Decimal(b.version);
    DecimalInjective(a.version, b.version);
  }

  /** The key determines the definition as long as developer and game hold no colon;
      the id may hold any number of them. */
  lemma KeyInjective(a: DefinitionId, b: DefinitionId)
    requires ColonFree(a) && ColonFree(b)
    requires Key(a) == Key(b)
    ensures a == b
  {
    KeyParts(a, b);
    FirstCut(':', a.developer, a.game + ":" + a.id, b.developer, b.game + ":" + b.id);
    FirstCut(':', a.game, a.id, b.game, b.id);
  }

  /** What comes before the first colon of a text, and what comes after it. */
  function CutAtColon(s: string): (string, string) {
    if s == "" then ("", "")
    else if s[0] == ':' then ("", s[1..])
    else var (before, after) := CutAtColon(s[1..]); ([s[0]] + before, after)
  }

  lemma {:induction false} CutsAtFirst(a: string, b: string)
    requires ':' !in a
    ensures CutAtColon(a + ":" + b) == (a, b)
  {
    if a == "" {
      assert a + ":" + b == ":" + b;
    } else {
      CutsAtFirst(a[1..], b);
      assert (a + ":" + b)[1..] == a[1..] + ":" + b;
      assert [a[0]] + a[1..] == a;
    }
  }

  /** A key reads developer, game, and id with version, cut at its first two colons. */
  lemma KeyReadsBack(d: DefinitionId)
    requires ColonFree(d)
    ensures var (developer, rest) := CutAtColon(Key(d));
      && developer == d.developer
      && CutAtColon(rest) == (d.game, d.id + ":v" + Decimal(d.version))
  {
    var rest := d.id + ":v" + Decimal(d.version);
    assert Key(d) == d.developer + ":" + (d.game + ":" + rest);
    CutsAtFirst(d.developer, d.game + ":" + rest);
    CutsAtFirst(d.game, rest);
  }

  lemma ColonCount(d: DefinitionId)
    ensures Occurrences(':', d.developer + ":" + (d.game + ":" + d.id))
            == Occurrences(':', d.developer) + Occurrences(':', d.game) + Occurrences(':', d.id) + 2
  {
    OccurrencesAppend(':', d.game + ":", d.id);
    OccurrencesAppend(':', d.game, ":");
    OccurrencesAppend(':', d.developer + ":", d.game + ":" + d.id);
    OccurrencesAppend(':', d.developer, ":");
  }

  /** Exactly when a key belongs to one definition only: no colon in any of the three names.
      A colon anywhere lets a different split of the names print the same key. */
  lemma KeyUnambiguousIff(a: DefinitionId)
    ensures (forall b: DefinitionId | Key(b) == Key(a) :: b == a)
            <==> ColonFree(a) && ':' !in a.id
  {
    if ColonFree(a) && ':' !in a.id {
      forall b: DefinitionId | Key(b) == Key(a)
        ensures b == a
      {
        KeyParts(b, a);
        ColonCount(a);
        ColonCount(b);
        NoOccurrence(':', a.developer);
        NoOccurrence(':', a.game);
        NoOccurrence(':', a.id);
        NoOccurrence(':', b.developer);
        NoOccurrence(':', b.game);
        KeyInjective(b, a);
      }
    } else {
      var b := Resplit(a);
      assert Key(b) == Key(a);
    }
  }

  /** Another definition with the same key, when some name holds a colon. */
  lemma Resplit(a: DefinitionId) returns (b: DefinitionId)
    requires !ColonFree(a) || ':' in a.id
    ensures b != a && Key(b) == Key(a)
  {
    if ':' in a.developer {
      var x, y := SplitAt(':', a.developer);
      b := DefinitionId(x, y, a.game + ":" + a.id, a.version);
      assert b.developer + ":" + b.game == a.developer;
    } else if ':' in a.game {
      var x, y := SplitAt(':', a.game);
      b := DefinitionId(a.developer, x, y + ":" + a.id, a.version);
      assert a.developer + ":" + a.game + ":" + a.id == b.developer + ":" + b.game + ":" + b.id;
    } else {
      var x, y := SplitAt(':', a.id);
      b := DefinitionId(a.developer + ":" + a.game, x, y, a.version);
    }
    assert a.developer + ":" + a.game + ":" + a.id == b.developer + ":" + b.game + ":" + b.id;
  }

  // ------------------------------------------------------------- the registries

  datatype AchievementDefinition = AchievementDefinition(
    developer: string, game: string, achievementId: string, version: nat, name: string, description: string)
  {
    function Id(): DefinitionId { DefinitionId(developer, game, achievementId, version) }
  }

  datatype EntitlementDefinition = EntitlementDefinition(
    developer: string, game: string, entitlementId: string, version: nat,
    itemType: string, itemId: string, description: string)
  {
    function Id(): DefinitionId { DefinitionId(developer, game, entitlementId, version) }
  }

  /** The string-keyed map agrees with a map keyed by the four names, on every colon-free lookup. */
  ghost predicate Refines<D(!new)>(stored: map<string, D>, byId: map<DefinitionId, D>) {
    && (forall d: DefinitionId | d in byId :: ColonFree(d))
    && (forall d: DefinitionId | ColonFree(d) ::
          (Key(d) in stored <==> d in byId) && (d in byId ==> stored[Key(d)] == byId[d]))
  }

  /** Storing under the string key is storing under the four names. */
  lemma InsertRefines<D(!new)>(stored: map<string, D>, byId: map<DefinitionId, D>, d: DefinitionId, def: D)
    requires Refines(stored, byId) && ColonFree(d)
    ensures Refines(stored[Key(d) := def], byId[d := def])
  {
    forall e: DefinitionId | ColonFree(e) && Key(e) == Key(d)
      ensures e == d
    {
      KeyInjective(e, d);
    }
  }

  class AchievementRegistry {
    var achievements: map<string, AchievementDefinition>
    /** The same definitions keyed by developer, game, id and version. */
    ghost var byId: map<DefinitionId, AchievementDefinition>

    ghost predicate Valid()
      reads this
    {
      Refines(achievements, byId)
    }

    constructor ()
      ensures Valid() && byId == map[] && achievements == map[]
    {
      achievements, byId := map[], map[];
    }

    /** `insert`: a definition with a colon in developer or game is stored too, but then the
        registry is no longer a map of the four names. */
    method Insert(def: AchievementDefinition)
      modifies this
      ensures achievements == old(achievements)[Key(def.Id()) := def]
      ensures byId == old(byId)[def.Id() := def]
      ensures old(Valid()) && ColonFree(def.Id()) ==> Valid()
    {
      var key := Key(def.Id());
      if Valid() && ColonFree(def.Id()) {
        InsertRefines(achievements, byId, def.Id(), def);
      }
      achievements, byId := achievements[key := def], byId[def.Id() := def];
    }

    /** `get` */
    method Get(developer: string, game: string, id: string, version: nat)
      returns (def: Option<AchievementDefinition>)
      ensures var d := DefinitionId(developer, game, id, version);
        && def == (if Key(d) in achievements then Some(achievements[Key(d)]) else None)
        && (Valid() && ColonFree(d) ==> def == (if d in byId then Some(byId[d]) else None))
    {
      var key := Key(DefinitionId(developer, game, id, version));
      def := if key in achievements then Some(achievements[key]) else None;
    }
  }

  class EntitlementRegistry {
    var entitlements: map<string, EntitlementDefinition>
    /** The same definitions keyed by developer, game, id and version. */
    ghost var byId: map<DefinitionId, EntitlementDefinition>

    ghost predicate Valid()
      reads this
    {
      Refines(entitlements, byId)
    }

    constructor ()
      ensures Valid() && byId == map[] && entitlements == map[]
    {
      entitlements, byId := map[], map[];
    }

    /** `insert` */
    method Insert(def: EntitlementDefinition)
      modifies this
      ensures entitlements == old(entitlements)[Key(def.Id()) := def]
      ensures byId == old(byId)[def.Id() := def]
      ensures old(Valid()) && ColonFree(def.Id()) ==> Valid()
    {
      var key := Key(def.Id());
      if Valid() && ColonFree(def.Id()) {
        InsertRefines(entitlements, byId, def.Id(), def);
      }
      entitlements, byId := entitlements[key := def], byId[def.Id() := def];
    }

    /** `get` */
    method Get(developer: string, game: string, id: string, version: nat)
      returns (def: Option<EntitlementDefinition>)
      ensures var d := DefinitionId(developer, game, id, version);
        && def == (if Key(d) in entitlements then Some(entitlements[Key(d)]) else None)
        && (Valid() && ColonFree(d) ==> def == (if d in byId then Some(byId[d]) else None))
    {
      var key := Key(DefinitionId(developer, game, id, version));
      def := if key in entitlements then Some(entitlements[key]) else None;
    }
  }
}

/** The save as a JSON tree, and `loadGame` of novaCoin.js.

    `localStorage.getItem` and `JSON.parse` are outside the model: the stored
    text is an `Option<string>` (None when nothing is stored) and the parser
    is a parameter that answers None when the text does not parse.
    `structuredClone` of a value is the value itself, as trees are immutable. */
module SaveFormat {
  import opened Wrappers
  import opened Json
  import opened DeepMerge
  import opened Catalog
  import opened Economy

  function Int(i: int): Json {
    Num(i as real)
  }

  function EncodeUpgrade(u: Upgrade): Json {
    Obj(map["cost" := Int(u.cost), "level" := Int(u.level)])
  }

  /** `available` is written only once the shop has set it. */
  function EncodeItem(s: ItemState): Json {
    if s.available then Obj(map["bought" := Bool(s.bought), "available" := Bool(true)])
    else Obj(map["bought" := Bool(s.bought)])
  }

  function EncodeStats(s: GameStats): Json {
    Obj(map[
      "novaCoinsBalance" := Int(s.novaCoinsBalance),
      "coinsPerClick" := Int(s.coinsPerClick),
      "totalMined" := Int(s.totalMined),
      "totalClicks" := Int(s.totalClicks),
      "clicksMultiplier" := Int(s.clicksMultiplier),
      "autoMinerMultiplier" := Int(s.autoMinerMultiplier)])
  }

  function EncodeItems(i: Items): Json {
    Obj(map[
      Key(GoldenClicks) := EncodeItem(i.goldenClicks),
      Key(GoldenMiner) := EncodeItem(i.goldenMiner),
      Key(DiamondClicks) := EncodeItem(i.diamondClicks),
      Key(DiamondMiner) := EncodeItem(i.diamondMiner),
      Key(ComboClicks) := EncodeItem(i.comboClicks),
      Key(LightningMiner) := EncodeItem(i.lightningMiner)])
  }

  /** The tree `JSON.stringify(saveData)` describes. */
  function Encode(g: Game): Json {
    Obj(map[
      "version" := Int(g.version),
      "gameStats" := EncodeStats(g.gameStats),
      "upgrades" := Obj(map["clickBoost" := EncodeUpgrade(g.upgrades.clickBoost),
                            "autoMiner" := EncodeUpgrade(g.upgrades.autoMiner)]),
      "entities" := Obj(map["autoMiner" := Obj(map["amount" := Int(g.entities.autoMiner.amount),
                                                   "speed" := Int(g.entities.autoMiner.speed)])]),
      "items" := EncodeItems(g.items)])
  }

  /** `defaultSave` as a tree. */
  const DefaultSave: Json := Encode(Defaults)

  function Field(j: Json, key: string): Option<Json> {
    if j.Obj? && key in j.fields then Some(j.fields[key]) else None
  }

  /** A number with no fractional part. */
  function IntField(j: Json, key: string): Option<int> {
    var v :- Field(j, key);
    if v.Num? && v.n.Floor as real == v.n then Some(v.n.Floor) else None
  }

  /** A flag as the game reads it: by truthiness, absent meaning false. */
  function Flag(j: Json, key: string): bool {
    j.Obj? && key in j.fields && Truthy(j.fields[key])
  }

  function DecodeUpgrade(j: Json): Option<Upgrade> {
    var cost :- IntField(j, "cost");
    var level :- IntField(j, "level");
    Some(Upgrade(cost, level))
  }

  function DecodeItem(j: Json): Option<ItemState> {
    if j.Obj? then Some(ItemState(Flag(j, "bought"), Flag(j, "available"))) else None
  }

  function DecodeStats(j: Json): Option<GameStats> {
    var balance :- IntField(j, "novaCoinsBalance");
    var perClick :- IntField(j, "coinsPerClick");
    var mined :- IntField(j, "totalMined");
    var clicks :- IntField(j, "totalClicks");
    var clickMul :- IntField(j, "clicksMultiplier");
    var minerMul :- IntField(j, "autoMinerMultiplier");
    Some(GameStats(balance, perClick, mined, clicks, clickMul, minerMul))
  }

  function DecodeItems(j: Json): Option<Items> {
    var a :- Field(j, Key(GoldenClicks));
    var b :- Field(j, Key(GoldenMiner));
    var c :- Field(j, Key(DiamondClicks));
    var d :- Field(j, Key(DiamondMiner));
    var e :- Field(j, Key(ComboClicks));
    var f :- Field(j, Key(LightningMiner));
    var sa :- DecodeItem(a);
    var sb :- DecodeItem(b);
    var sc :- DecodeItem(c);
    var sd :- DecodeItem(d);
    var se :- DecodeItem(e);
    var sf :- DecodeItem(f);
    Some(Items(sa, sb, sc, sd, se, sf))
  }

  /** The typed record the game's field reads see in a tree, when every field
      it reads is present with an integral number. */
  function Decode(j: Json): Option<Game> {
    var version :- IntField(j, "version");
    var statsTree :- Field(j, "gameStats");
    var stats :- DecodeStats(statsTree);
    var upgradesTree :- Field(j, "upgrades");
    var clickTree :- Field(upgradesTree, "clickBoost");
    var click :- DecodeUpgrade(clickTree);
    var minerUpTree :- Field(upgradesTree, "autoMiner");
    var minerUp :- DecodeUpgrade(minerUpTree);
    var entitiesTree :- Field(j, "entities");
    var minerTree :- Field(entitiesTree, "autoMiner");
    var amount :- IntField(minerTree, "amount");
    var speed :- IntField(minerTree, "speed");
    var itemsTree :- Field(j, "items");
    var items :- DecodeItems(itemsTree);
    Some(Game(version, stats, Upgrades(click, minerUp), Entities(Miner(amount, speed)), items))
  }

  lemma DecodeEncodeItem(s: ItemState)
    ensures DecodeItem(EncodeItem(s)) == Some(s)
  {
  }

  lemma DecodeEncodeItems(i: Items)
    ensures DecodeItems(EncodeItems(i)) == Some(i)
  {
    var j := EncodeItems(i);
    assert Field(j, Key(GoldenClicks)) == Some(EncodeItem(i.goldenClicks));
    assert Field(j, Key(GoldenMiner)) == Some(EncodeItem(i.goldenMiner));
    assert Field(j, Key(DiamondClicks)) == Some(EncodeItem(i.diamondClicks));
    assert Field(j, Key(DiamondMiner)) == Some(EncodeItem(i.diamondMiner));
    assert Field(j, Key(ComboClicks)) == Some(EncodeItem(i.comboClicks));
    assert Field(j, Key(LightningMiner)) == Some(EncodeItem(i.lightningMiner));
    DecodeEncodeItem(i.goldenClicks);
    DecodeEncodeItem(i.goldenMiner);
    DecodeEncodeItem(i.diamondClicks);
    DecodeEncodeItem(i.diamondMiner);
    DecodeEncodeItem(i.comboClicks);
    DecodeEncodeItem(i.lightningMiner);
  }

  lemma DecodeEncodeStats(s: GameStats)
    ensures DecodeStats(EncodeStats(s)) == Some(s)
  {
  }

  lemma DecodeEncodeUpgrade(u: Upgrade)
    ensures DecodeUpgrade(EncodeUpgrade(u)) == Some(u)
  {
  }

  /** Reading back what was written gives the same game. */
  lemma DecodeEncode(g: Game)
    ensures Decode(Encode(g)) == Some(g)
  {
    var j := Encode(g);
    var m := g.entities.autoMiner;
    var minerTree := Obj(map["amount" := Int(m.amount), "speed" := Int(m.speed)]);
    var upgradesTree := Obj(map["clickBoost" := EncodeUpgrade(g.upgrades.clickBoost),
                                "autoMiner" := EncodeUpgrade(g.upgrades.autoMiner)]);
    assert IntField(j, "version") == Some(g.version);
    assert Field(j, "gameStats") == Some(EncodeStats(g.gameStats));
    DecodeEncodeStats(g.gameStats);
    assert Field(j, "upgrades") == Some(upgradesTree);
    assert Field(upgradesTree, "clickBoost") == Some(EncodeUpgrade(g.upgrades.clickBoost));
    assert Field(upgradesTree, "autoMiner") == Some(EncodeUpgrade(g.upgrades.autoMiner));
    DecodeEncodeUpgrade(g.upgrades.clickBoost);
    DecodeEncodeUpgrade(g.upgrades.autoMiner);
    assert Field(j, "entities") == Some(Obj(map["autoMiner" := minerTree]));
    assert IntField(minerTree, "amount") == Some(m.amount);
    assert IntField(minerTree, "speed") == Some(m.speed);
    assert Field(j, "items") == Some(EncodeItems(g.items));
    DecodeEncodeItems(g.items);
  }

  /** An object whose keys cover those of an object of leaves has its shape. */
  lemma ShapeOverLeaves(t: Json, d: Json)
    requires t.Obj? && d.Obj? && d.fields.Keys <= t.fields.Keys
    requires forall key :: key in d.fields ==> !d.fields[key].Obj?
    ensures HasShape(t, d)
  {
  }

  lemma ItemHasShape(s: ItemState)
    ensures HasShape(EncodeItem(s), EncodeItem(NotBought))
  {
    ShapeOverLeaves(EncodeItem(s), EncodeItem(NotBought));
  }

  lemma ItemsHaveShape(i: Items)
    ensures HasShape(EncodeItems(i), EncodeItems(Defaults.items))
  {
    var t := EncodeItems(i);
    var d := EncodeItems(Defaults.items);
    ItemHasShape(i.goldenClicks);
    ItemHasShape(i.goldenMiner);
    ItemHasShape(i.diamondClicks);
    ItemHasShape(i.diamondMiner);
    ItemHasShape(i.comboClicks);
    ItemHasShape(i.lightningMiner);
    forall key | key in d.fields
      ensures key in t.fields && HasShape(t.fields[key], d.fields[key])
    {
    }
  }

  lemma UpgradesHaveShape(g: Game)
    ensures HasShape(Encode(g).fields["upgrades"], DefaultSave.fields["upgrades"])
  {
    var t := Encode(g).fields["upgrades"];
    var d := DefaultSave.fields["upgrades"];
    assert d.fields.Keys == {"clickBoost", "autoMiner"};
    ShapeOverLeaves(t.fields["clickBoost"], d.fields["clickBoost"]);
    ShapeOverLeaves(t.fields["autoMiner"], d.fields["autoMiner"]);
  }

  lemma EntitiesHaveShape(g: Game)
    ensures HasShape(Encode(g).fields["entities"], DefaultSave.fields["entities"])
  {
    var t := Encode(g).fields["entities"];
    var d := DefaultSave.fields["entities"];
    assert d.fields.Keys == {"autoMiner"};
    ShapeOverLeaves(t.fields["autoMiner"], d.fields["autoMiner"]);
  }

  /** Every tree the game writes has the shape of the defaults. */
  lemma EncodeHasShape(g: Game)
    ensures HasShape(Encode(g), DefaultSave)
  {
    var t := Encode(g);
    var d := DefaultSave;
    assert d.fields.Keys == {"version", "gameStats", "upgrades", "entities", "items"} == t.fields.Keys;
    ShapeOverLeaves(t.fields["gameStats"], d.fields["gameStats"]);
    ItemsHaveShape(g.items);
    UpgradesHaveShape(g);
    EntitiesHaveShape(g);
    forall key | key in d.fields
      ensures key in t.fields && HasShape(t.fields[key], d.fields[key])
    {
      if key == "items" {
        assert t.fields[key] == EncodeItems(g.items);
        assert d.fields[key] == EncodeItems(Defaults.items);
      }
    }
  }

  /** What `loadGame` leaves in `saveData`, and whether it warned that the save
      was corrupted. */
  datatype Loaded = Loaded(save: Json, warned: bool)

  /** `loadGame`: defaults when nothing (or the empty text) is stored,
      defaults and a warning when the text does not parse or the merge
      throws, otherwise the parsed save backfilled with the defaults. */
  function LoadGame(raw: Option<string>, parse: string -> Option<Json>): (r: Loaded)
    ensures raw == None || raw == Some("") ==> r == Loaded(DefaultSave, false)
    ensures raw.Some? && raw.value != "" && parse(raw.value) == None ==> r == Loaded(DefaultSave, true)
    ensures raw.Some? && raw.value != "" && parse(raw.value).Some? ==>
              (r.warned <==> Throws(parse(raw.value).value, DefaultSave))
    ensures r.warned ==> r.save == DefaultSave
    // a parsed save that merges without throwing is kept, backfilled
    ensures raw.Some? && raw.value != "" && parse(raw.value).Some? && !Throws(parse(raw.value).value, DefaultSave) ==>
              r == Loaded(Merge(parse(raw.value).value, DefaultSave), false)
    // whatever was loaded loads again unchanged
    ensures !Throws(r.save, DefaultSave) && Merge(r.save, DefaultSave) == r.save
  {
    EncodeHasShape(Defaults);
    ShapedIsFixedPoint(DefaultSave, DefaultSave);
    if raw == None || raw.value == "" then
      Loaded(DefaultSave, false)
    else match parse(raw.value)
      case None => Loaded(DefaultSave, true)
      case Some(parsed) =>
        if Throws(parsed, DefaultSave) then
          Loaded(DefaultSave, true)
        else
          MergeIdempotent(parsed, DefaultSave);
          MergeKeepsNoThrow(parsed, DefaultSave);
          Loaded(Merge(parsed, DefaultSave), false)
  }

  /** A save the game wrote loads back as the very same tree, without a
      warning, and reads back as the same game. */
  lemma LoadRoundTrip(g: Game, text: string, parse: string -> Option<Json>)
    requires text != ""
    requires parse(text) == Some(Encode(g))
    ensures LoadGame(Some(text), parse) == Loaded(Encode(g), false)
    ensures Decode(LoadGame(Some(text), parse).save) == Some(g)
  {
    EncodeHasShape(g);
    ShapedIsFixedPoint(Encode(g), DefaultSave);
    DecodeEncode(g);
  }

  /** Forward migration: a field or section, at any depth, that the stored
      save lacks is loaded with its current default, provided no truthy
      non-object stands where the defaults hold a section. */
  lemma LoadBackfillsMissingField(text: string, parse: string -> Option<Json>, path: seq<string>)
    requires text != ""
    requires parse(text).Some? && Compatible(parse(text).value, DefaultSave)
    requires Lookup(DefaultSave, path).Some? && Lookup(parse(text).value, path) == None
    ensures !LoadGame(Some(text), parse).warned
    ensures Lookup(LoadGame(Some(text), parse).save, path) == Lookup(DefaultSave, path)
  {
    CompatibleMergeCovers(parse(text).value, DefaultSave);
    MergeFillsMissing(parse(text).value, DefaultSave, path);
  }

  /** The other half of the migration: every non-object value the stored
      save holds, at any depth, is loaded unchanged, unless it is a falsy
      value where the defaults hold a section. */
  lemma LoadKeepsSavedField(text: string, parse: string -> Option<Json>, path: seq<string>)
    requires text != ""
    requires parse(text).Some? && !Throws(parse(text).value, DefaultSave)
    requires Lookup(parse(text).value, path).Some? && !Lookup(parse(text).value, path).value.Obj?
    requires Truthy(Lookup(parse(text).value, path).value) || !ObjectAt(DefaultSave, path)
    ensures !LoadGame(Some(text), parse).warned
    ensures Lookup(LoadGame(Some(text), parse).save, path) == Lookup(parse(text).value, path)
  {
    MergeKeepsSavedLeaf(parse(text).value, DefaultSave, path);
  }

  /** Stored text that parses to anything but an object (`null`, a number,
      a string, a boolean) makes `deepMerge` throw, so the defaults are
      loaded with a warning. */
  lemma LoadNonObjectWarns(text: string, parse: string -> Option<Json>)
    requires text != ""
    requires parse(text).Some? && !parse(text).value.Obj?
    ensures LoadGame(Some(text), parse) == Loaded(DefaultSave, true)
  {
    var d := DefaultSave;
    assert "gameStats" in d.fields && d.fields["gameStats"].Obj?;
    assert "novaCoinsBalance" in d.fields["gameStats"].fields;
    assert Throws(parse(text).value, d);
  }

  /** A stored `{}` loads as exactly the defaults. */
  lemma LoadEmptyObject(text: string, parse: string -> Option<Json>)
    requires text != ""
    requires parse(text) == Some(Empty)
    ensures LoadGame(Some(text), parse) == Loaded(DefaultSave, false)
  {
    MergeIntoEmpty(DefaultSave);
  }
}

/**
 * The game database as one in-memory store: the character, quest, item,
 * inventory, achievement and battle tables, and the operations of the
 * progression engine that read and update them.
 */
module Database {
  import opened Wrappers
  import opened Records
  import opened Leveling
  import opened Equipment
  import opened Battle
  import opened Achievements

  datatype StoreError = ItemNotFound | NotEnoughGold | ItemNotInInventory

  /** What `complete_quest` reports: the completed quest, the rewarded character (None if missing) and the rewards. */
  datatype QuestCompletion = QuestCompletion(quest: Quest, character: Option<Character>, rewards: Reward)

  /** What a successful `purchase_item` reports; `inventoryId` is the position of the new inventory row. */
  datatype Purchase = Purchase(item: Item, inventoryId: nat, character: Character)

  /** What `battle_monster` reports. */
  datatype BattleOutcome = BattleOutcome(won: bool, monster: Monster, rewards: Reward, character: Character)

  /** The first `n` seeded shop items keyed by item id, 1 .. n. */
  function Catalogue(n: nat): (items: map<int, Item>)
    requires n <= |SeedItems|
    ensures forall id :: id in items <==> 1 <= id <= n
    ensures forall id :: id in items ==> items[id] == SeedItems[id - 1]
  {
    if n == 0 then map[] else Catalogue(n - 1)[n := SeedItems[n - 1]]
  }

  /** The level-up loop has run to completion and health does not exceed max health. */
  predicate Normal(c: Character)
  {
    c.xp < XpForNextLevel(c.level) && c.health <= c.maxHealth
  }

  /** A freshly created character: level 1, no xp or gold, 100/100 health, attack 10, defense 5. */
  function NewCharacter(name: string): (c: Character)
    ensures StatsDerived(c, NoBonus) && Normal(c)
    ensures c.level == 1 && c.xp == 0 && c.gold == 0 && c.health == c.maxHealth
  {
    Character(name, 1, 0, 0, 100, 100, 10, 5)
  }

  /** Every id in `keys` lies in [1, next), so the next insert gets a fresh id. */
  ghost predicate IdsBelow(keys: set<int>, next: int)
  {
    next >= 1 && forall id :: id in keys ==> 1 <= id < next
  }

  /** Inventory rows point at existing characters and items. */
  ghost predicate Linked(inventory: seq<InventoryEntry>, owners: set<int>, items: map<int, Item>)
  {
    forall i :: 0 <= i < |inventory| ==> inventory[i].owner in owners && inventory[i].item in items
  }

  /**
   * Every character is normal and, except `skip`, has attack, defense and
   * max health equal to the base of its level plus its equipped bonus.
   */
  ghost predicate Sound(characters: map<int, Character>, inventory: seq<InventoryEntry>, items: map<int, Item>, skip: Option<int>)
  {
    forall id :: id in characters ==>
      Normal(characters[id]) && (skip != Some(id) ==> StatsDerived(characters[id], EquippedBonus(inventory, items, id)))
  }

  /** The invariant of the store's tables (with `skip` exempt from derived stats). */
  ghost predicate Consistent(characters: map<int, Character>, nextCharacterId: int, quests: map<int, Quest>, nextQuestId: int,
                             items: map<int, Item>, inventory: seq<InventoryEntry>, skip: Option<int>)
  {
    && IdsBelow(characters.Keys, nextCharacterId)
    && IdsBelow(quests.Keys, nextQuestId)
    && Sound(characters, inventory, items, skip)
    && Linked(inventory, characters.Keys, items)
    && AtMostOneWornPerKind(inventory, items)
  }

  /** Inserting a default character under the next id keeps the invariant. */
  lemma NewCharacterKeepsConsistent(characters: map<int, Character>, nextCharacterId: int, quests: map<int, Quest>,
                                    nextQuestId: int, items: map<int, Item>, inventory: seq<InventoryEntry>, name: string)
    requires Consistent(characters, nextCharacterId, quests, nextQuestId, items, inventory, None)
    ensures nextCharacterId !in characters
    ensures Consistent(characters[nextCharacterId := NewCharacter(name)], nextCharacterId + 1, quests, nextQuestId,
                       items, inventory, None)
  {
    var id := nextCharacterId;
    var c := NewCharacter(name);
    var chars := characters[id := c];
    assert forall i :: 0 <= i < |inventory| ==> inventory[i].owner != id;
    NoEntriesNoBonus(inventory, items, id, |inventory|);
    assert StatsDerived(c, EquippedBonus(inventory, items, id));
    forall k | k in chars
      ensures Normal(chars[k]) && StatsDerived(chars[k], EquippedBonus(inventory, items, k))
    {
      if k != id {
        assert chars[k] == characters[k];
      }
    }
    assert Linked(inventory, chars.Keys, items);
  }

  /** Inserting a quest under the next id keeps the invariant. */
  lemma NewQuestKeepsConsistent(characters: map<int, Character>, nextCharacterId: int, quests: map<int, Quest>,
                                nextQuestId: int, items: map<int, Item>, inventory: seq<InventoryEntry>, q: Quest)
    requires Consistent(characters, nextCharacterId, quests, nextQuestId, items, inventory, None)
    ensures nextQuestId !in quests
    ensures Consistent(characters, nextCharacterId, quests[nextQuestId := q], nextQuestId + 1, items, inventory, None)
  {
  }

  /** Replacing a character by its `Gain` (xp and gold granted, levels cascaded) keeps the invariant. */
  lemma GainKeepsConsistent(characters: map<int, Character>, nextCharacterId: int, quests: map<int, Quest>,
                            nextQuestId: int, items: map<int, Item>, inventory: seq<InventoryEntry>,
                            id: int, xp: int, gold: int)
    requires Consistent(characters, nextCharacterId, quests, nextQuestId, items, inventory, None)
    requires id in characters
    ensures Consistent(characters[id := Gain(characters[id], xp, gold)], nextCharacterId, quests, nextQuestId,
                       items, inventory, None)
  {
    var c := characters[id];
    CascadeSpec(c, c.xp + xp);
    CascadeKeepsStatsDerived(c, c.xp + xp, EquippedBonus(inventory, items, id));
  }

  /** Paying for an item and appending its unequipped inventory row keeps the invariant. */
  lemma PurchaseKeepsConsistent(characters: map<int, Character>, nextCharacterId: int, quests: map<int, Quest>,
                                nextQuestId: int, items: map<int, Item>, inventory: seq<InventoryEntry>,
                                id: int, itemId: int, price: int)
    requires Consistent(characters, nextCharacterId, quests, nextQuestId, items, inventory, None)
    requires id in characters && itemId in items
    ensures Consistent(characters[id := characters[id].(gold := characters[id].gold - price)], nextCharacterId,
                       quests, nextQuestId, items, inventory + [InventoryEntry(id, itemId, false)], None)
  {
    var entry := InventoryEntry(id, itemId, false);
    AppendUnwornKeepsOneWornPerKind(inventory, items, entry);
    forall k | k in characters
      ensures EquippedBonus(inventory + [entry], items, k) == EquippedBonus(inventory, items, k)
    {
      UnwornEntryAddsNoBonus(inventory, items, entry, k);
    }
  }

  /**
   * The flag updates of `equip_item` keep the invariant for everyone but the
   * equipping character, whose stats are then stale until recomputed.
   */
  lemma EquipKeepsConsistent(characters: map<int, Character>, nextCharacterId: int, quests: map<int, Quest>,
                             nextQuestId: int, items: map<int, Item>, inventory: seq<InventoryEntry>,
                             owner: int, chosen: nat)
    requires Consistent(characters, nextCharacterId, quests, nextQuestId, items, inventory, None)
    requires chosen < |inventory| && inventory[chosen].owner == owner && inventory[chosen].item in items
    ensures Consistent(characters, nextCharacterId, quests, nextQuestId, items,
                       AfterEquip(inventory, items, owner, chosen), Some(owner))
  {
    EquipKeepsOneWornPerKind(inventory, items, owner, chosen);
    AfterEquipSpec(inventory, items, owner, chosen);
    forall k | k in characters && k != owner
      ensures EquippedBonus(AfterEquip(inventory, items, owner, chosen), items, k) == EquippedBonus(inventory, items, k)
    {
      EquipKeepsOtherOwnersBonus(inventory, items, owner, chosen, k);
    }
  }

  /** Recomputing the one stale character's stats restores the full invariant. */
  lemma RecalculateRestoresConsistent(characters: map<int, Character>, nextCharacterId: int, quests: map<int, Quest>,
                                      nextQuestId: int, items: map<int, Item>, inventory: seq<InventoryEntry>, id: int)
    requires Consistent(characters, nextCharacterId, quests, nextQuestId, items, inventory, Some(id))
    requires id in characters
    ensures Consistent(characters[id := Recalculated(characters[id], EquippedBonus(inventory, items, id))],
                       nextCharacterId, quests, nextQuestId, items, inventory, None)
  {
  }

  class Store {
    var characters: map<int, Character>
    var nextCharacterId: int
    var quests: map<int, Quest>
    var nextQuestId: int
    /** The shop catalogue: seeded once and never written afterwards. */
    const items: map<int, Item>
    var inventory: seq<InventoryEntry>
    var achievements: seq<Achievement>
    var battles: seq<BattleRecord>

    /** The tables' invariant, with character `skip` exempt from derived stats. */
    ghost predicate ValidExcept(skip: Option<int>)
      reads this`characters, this`nextCharacterId, this`quests, this`nextQuestId, this`inventory
    {
      Consistent(characters, nextCharacterId, quests, nextQuestId, items, inventory, skip)
    }

    ghost predicate Valid()
      reads this`characters, this`nextCharacterId, this`quests, this`nextQuestId, this`inventory
    {
      ValidExcept(None)
    }

    /** `init_db`: empty tables except the seeded shop and achievements. */
    constructor ()
      ensures Valid()
      ensures characters == map[] && quests == map[] && inventory == [] && battles == []
      ensures items == Catalogue(|SeedItems|) && achievements == SeedAchievements
    {
      characters := map[];
      nextCharacterId := 1;
      quests := map[];
      nextQuestId := 1;
      items := Catalogue(|SeedItems|);
      inventory := [];
      achievements := SeedAchievements;
      battles := [];
    }

    /** `create_character`: a new row with the next id and the default stats. */
    method CreateCharacter(name: string) returns (id: int)
      requires Valid()
      modifies this`characters, this`nextCharacterId
      ensures Valid()
      ensures id == old(nextCharacterId) && id !in old(characters)
      ensures characters == old(characters)[id := NewCharacter(name)]
      ensures nextCharacterId == id + 1
    {
      id := nextCharacterId;
      NewCharacterKeepsConsistent(characters, nextCharacterId, quests, nextQuestId, items, inventory, name);
      characters := characters[id := NewCharacter(name)];
      nextCharacterId := nextCharacterId + 1;
    }

    /** `create_quest`: a new open quest whose rewards come from the difficulty table. */
    method CreateQuest(title: string, description: string, difficulty: string) returns (id: int)
      requires Valid()
      modifies this`quests, this`nextQuestId
      ensures Valid()
      ensures id == old(nextQuestId) && id !in old(quests)
      ensures quests == old(quests)[id := Quest(title, description, difficulty,
                                                QuestRewards(difficulty).xp, QuestRewards(difficulty).gold, false)]
      ensures nextQuestId == id + 1
    {
      var reward := QuestRewards(difficulty);
      id := nextQuestId;
      NewQuestKeepsConsistent(characters, nextCharacterId, quests, nextQuestId, items, inventory,
                              Quest(title, description, difficulty, reward.xp, reward.gold, false));
      quests := quests[id := Quest(title, description, difficulty, reward.xp, reward.gold, false)];
      nextQuestId := nextQuestId + 1;
    }

    /**
     * `add_xp_and_gold`: None for a missing character; otherwise the gold
     * is added and the experience runs through the level-up loop, the row
     * being rewritten on every level gained.
     */
    method AddXpAndGold(id: int, xp: int, gold: int) returns (r: Option<Character>)
      requires Valid()
      modifies this`characters
      ensures Valid()
      ensures id !in old(characters) ==> r == None && characters == old(characters)
      ensures id in old(characters) ==>
                && r == Some(Gain(old(characters)[id], xp, gold))
                && characters == old(characters)[id := r.value]
    {
      if id !in characters {
        return None;
      }
      var start := characters[id];
      var c := start;
      var newXp := c.xp + xp;
      var newGold := c.gold + gold;
      assert characters == old(characters)[id := c];
      while newXp >= XpForNextLevel(c.level)
        invariant characters == old(characters)[id := c]
        invariant c.gold == start.gold
        invariant Cascade(c, newXp) == Cascade(start, start.xp + xp)
        decreases newXp
      {
        CascadeStep(c, newXp);
        newXp := newXp - XpForNextLevel(c.level);
        c := Promote(c);
        characters := characters[id := c];
      }
      var final := c.(xp := newXp, gold := newGold);
      CascadeDone(c, newXp);
      assert final == Gain(start, xp, gold);
      GainKeepsConsistent(old(characters), nextCharacterId, quests, nextQuestId, items, inventory, id, xp, gold);
      characters := characters[id := final];
      r := Some(final);
    }

    /**
     * `complete_quest`: a missing or already completed quest gives None and
     * changes nothing; otherwise the quest is marked completed and the
     * character (if it exists) receives exactly the quest's stored rewards.
     */
    method CompleteQuest(questId: int, characterId: int) returns (r: Option<QuestCompletion>)
      requires Valid()
      modifies this`quests, this`characters
      ensures Valid()
      ensures questId !in old(quests) || old(quests)[questId].completed ==>
                r == None && quests == old(quests) && characters == old(characters)
      ensures questId in old(quests) && !old(quests)[questId].completed ==>
                var q := old(quests)[questId];
                var done := q.(completed := true);
                var rewarded := if characterId in old(characters)
                                then Some(Gain(old(characters)[characterId], q.xpReward, q.goldReward))
                                else None;
                && quests == old(quests)[questId := done]
                && r == Some(QuestCompletion(done, rewarded, Reward(q.xpReward, q.goldReward)))
                && characters == if rewarded.Some? then old(characters)[characterId := rewarded.value] else old(characters)
    {
      if questId !in quests || quests[questId].completed {
        return None;
      }
      var q := quests[questId];
      quests := quests[questId := q.(completed := true)];
      var c := AddXpAndGold(characterId, q.xpReward, q.goldReward);
      r := Some(QuestCompletion(quests[questId], c, Reward(q.xpReward, q.goldReward)));
    }

    /**
     * `purchase_item`: an unknown item or too little gold is an error that
     * changes nothing; otherwise the price is paid and one unequipped
     * inventory row is appended.
     */
    method PurchaseItem(characterId: int, itemId: int) returns (r: Result<Purchase, StoreError>)
      requires Valid() && (itemId in items ==> characterId in characters)
      modifies this`characters, this`inventory
      ensures Valid()
      ensures itemId !in items ==>
                r == Err(ItemNotFound) && characters == old(characters) && inventory == old(inventory)
      ensures itemId in items && old(characters)[characterId].gold < items[itemId].price ==>
                r == Err(NotEnoughGold) && characters == old(characters) && inventory == old(inventory)
      ensures itemId in items && old(characters)[characterId].gold >= items[itemId].price ==>
                && characters == old(characters)[characterId := old(characters)[characterId].(
                                   gold := old(characters)[characterId].gold - items[itemId].price)]
                && inventory == old(inventory) + [InventoryEntry(characterId, itemId, false)]
                && r == Ok(Purchase(items[itemId], |old(inventory)|, characters[characterId]))
    {
      if itemId !in items {
        return Err(ItemNotFound);
      }
      var item := items[itemId];
      var c := characters[characterId];
      if c.gold < item.price {
        return Err(NotEnoughGold);
      }
      PurchaseKeepsConsistent(characters, nextCharacterId, quests, nextQuestId, items, inventory,
                              characterId, itemId, item.price);
      characters := characters[characterId := c.(gold := c.gold - item.price)];
      var inventoryId := |inventory|;
      inventory := inventory + [InventoryEntry(characterId, itemId, false)];
      r := Ok(Purchase(item, inventoryId, characters[characterId]));
    }

    /**
     * `recalculate_character_stats`: attack, defense and max health rebuilt
     * from the level and the equipped bonuses, health capped by the new max.
     */
    method RecalculateCharacterStats(id: int)
      requires ValidExcept(Some(id)) && id in characters
      modifies this`characters
      ensures Valid()
      ensures characters == old(characters)[id := Recalculated(old(characters)[id], EquippedBonus(inventory, items, id))]
    {
      var c := characters[id];
      var bonus := EquippedBonus(inventory, items, id);
      RecalculateRestoresConsistent(characters, nextCharacterId, quests, nextQuestId, items, inventory, id);
      characters := characters[id := Recalculated(c, bonus)];
    }

    /**
     * `equip_item`: an entry the character does not own is an error that
     * changes nothing; otherwise every entry of the same type of that
     * character is unequipped, the chosen one equipped, and the character's
     * stats recomputed.
     */
    method EquipItem(inventoryId: int, characterId: int) returns (r: Result<Character, StoreError>)
      requires Valid()
      modifies this`inventory, this`characters
      ensures Valid()
      ensures !(0 <= inventoryId < |old(inventory)| && old(inventory)[inventoryId].owner == characterId
                && old(inventory)[inventoryId].item in items) ==>
                r == Err(ItemNotInInventory) && inventory == old(inventory) && characters == old(characters)
      ensures 0 <= inventoryId < |old(inventory)| && old(inventory)[inventoryId].owner == characterId
              && old(inventory)[inventoryId].item in items ==>
                && inventory == AfterEquip(old(inventory), items, characterId, inventoryId)
                && characters == old(characters)[characterId := Recalculated(old(characters)[characterId],
                                                                             EquippedBonus(inventory, items, characterId))]
                && r == Ok(characters[characterId])
    {
      if !(0 <= inventoryId < |inventory| && inventory[inventoryId].owner == characterId
           && inventory[inventoryId].item in items) {
        return Err(ItemNotInInventory);
      }
      var kind := items[inventory[inventoryId].item].kind;
      EquipKeepsConsistent(characters, nextCharacterId, quests, nextQuestId, items, inventory, characterId, inventoryId);
      ghost var equipped := AfterEquip(inventory, items, characterId, inventoryId);
      inventory := Unequipped(inventory, items, characterId, kind);
      inventory := inventory[inventoryId := inventory[inventoryId].(equipped := true)];
      assert inventory == equipped;
      RecalculateCharacterStats(characterId);
      r := Ok(characters[characterId]);
    }

    /**
     * `battle_monster`: the outcome is decided from the character's stats
     * before the fight, the rewards are paid through `AddXpAndGold`, and
     * exactly one record is appended to the battle log.
     */
    method BattleMonster(characterId: int, monsterName: string, monsterLevel: int) returns (outcome: BattleOutcome)
      requires Valid() && characterId in characters
      modifies this`characters, this`battles
      ensures Valid()
      ensures var c := old(characters)[characterId];
              var m := MonsterFor(monsterName, monsterLevel);
              var won := Wins(c.attack, c.defense, c.level, m);
              var reward := BattleReward(won, monsterLevel);
              && characters == old(characters)[characterId := Gain(c, reward.xp, reward.gold)]
              && outcome == BattleOutcome(won, m, reward, characters[characterId])
              && battles == old(battles) + [BattleRecord(characterId, monsterName, monsterLevel, won, reward.xp, reward.gold)]
      ensures outcome.monster.health == 50 + monsterLevel * 20
      ensures outcome.monster.attack == 5 + monsterLevel * 3 && outcome.monster.defense == 3 + monsterLevel * 2
      ensures outcome.won ==> outcome.rewards == Reward(30 * monsterLevel, 20 * monsterLevel)
      ensures !outcome.won ==> outcome.rewards == Reward(5 * monsterLevel, 0)
    {
      var c := characters[characterId];
      var m := MonsterFor(monsterName, monsterLevel);
      var won := Wins(c.attack, c.defense, c.level, m);
      var reward := BattleReward(won, monsterLevel);
      var _ := AddXpAndGold(characterId, reward.xp, reward.gold);
      battles := battles + [BattleRecord(characterId, monsterName, monsterLevel, won, reward.xp, reward.gold)];
      outcome := BattleOutcome(won, m, reward, characters[characterId]);
    }

    /**
     * `check_and_unlock_achievements` given the stats map: walks the table,
     * unlocks each locked achievement whose requirement is met and reports
     * it (as it was before the update), skipping unknown requirement types.
     */
    method CheckAndUnlockAchievements(stats: Stats) returns (newly: seq<Achievement>)
      modifies this`achievements
      ensures achievements == AfterCheck(old(achievements), stats)
      ensures newly == NewlyUnlocked(old(achievements), stats)
    {
      ghost var before := achievements;
      newly := [];
      var i := 0;
      while i < |achievements|
        invariant 0 <= i <= |achievements| == |before|
        invariant forall j :: 0 <= j < i ==> achievements[j] == Evaluated(before[j], stats)
        invariant forall j :: i <= j < |achievements| ==> achievements[j] == before[j]
        invariant newly == NewlyUnlocked(before[..i], stats)
      {
        var a := achievements[i];
        assert before[..i + 1] == before[..i] + [a];
        NewlyUnlockedSnoc(before[..i], a, stats);
        if Qualifies(a, stats) {
          achievements := achievements[i := a.(unlocked := true)];
          newly := newly + [a];
        }
        i := i + 1;
      }
      assert before[..i] == before;
      assert achievements == AfterCheck(before, stats);
    }
  }
}

/**
 * The rows of the game's tables (character, quest, item, inventory,
 * achievement, battle) as values, and the seeded shop and achievement
 * catalogues.
 */
module Records {

  /** Character levels start at 1 and only ever grow. */
  type Level = l: int | l >= 1 witness 1

  datatype Character = Character(
    name: string,
    level: Level,
    xp: int,
    gold: int,
    health: int,
    maxHealth: int,
    attack: int,
    defense: int)

  datatype Quest = Quest(
    title: string,
    description: string,
    difficulty: string,
    xpReward: int,
    goldReward: int,
    completed: bool)

  /** A shop item; `kind` is the item's type column ("weapon", "armor", ...). */
  datatype Item = Item(
    name: string,
    kind: string,
    description: string,
    price: int,
    attackBonus: int,
    defenseBonus: int,
    healthBonus: int,
    rarity: string)

  /** One row of the inventory table: which character owns which item, and whether it is worn. */
  datatype InventoryEntry = InventoryEntry(owner: int, item: int, equipped: bool)

  datatype Achievement = Achievement(
    name: string,
    description: string,
    icon: string,
    requirementType: string,
    requirementValue: int,
    unlocked: bool)

  /** One row of the append-only battle log. */
  datatype BattleRecord = BattleRecord(
    owner: int,
    monsterName: string,
    monsterLevel: int,
    won: bool,
    xpGained: int,
    goldGained: int)

  /** An amount of experience and gold paid out by a quest or a battle. */
  datatype Reward = Reward(xp: int, gold: int)

  /** The shop catalogue the database is seeded with; item ids are 1 .. 12 in this order. */
  const SeedItems: seq<Item> := [
    Item("Wooden Sword", "weapon", "A simple training sword", 50, 5, 0, 0, "common"),
    Item("Iron Sword", "weapon", "A sturdy iron blade", 200, 15, 0, 0, "common"),
    Item("Steel Sword", "weapon", "A well-crafted steel weapon", 500, 30, 0, 0, "uncommon"),
    Item("Legendary Blade", "weapon", "Forged by ancient smiths", 2000, 75, 0, 0, "legendary"),
    Item("Leather Armor", "armor", "Basic leather protection", 75, 0, 8, 0, "common"),
    Item("Iron Armor", "armor", "Heavy iron plating", 300, 0, 20, 0, "common"),
    Item("Steel Armor", "armor", "Masterwork steel armor", 750, 0, 40, 0, "uncommon"),
    Item("Dragon Scale Armor", "armor", "Armor made from dragon scales", 2500, 0, 100, 0, "legendary"),
    Item("Health Potion", "consumable", "Restores 50 HP", 30, 0, 0, 50, "common"),
    Item("Ring of Power", "accessory", "Increases attack power", 400, 20, 0, 0, "rare"),
    Item("Amulet of Defense", "accessory", "Enhances defensive abilities", 400, 0, 25, 0, "rare"),
    Item("Crown of Vitality", "accessory", "Increases maximum health", 600, 0, 0, 100, "rare")
  ]

  /** The achievements the database is seeded with, all locked. */
  const SeedAchievements: seq<Achievement> := [
    Achievement("First Steps", "Complete your first quest", "\U{1F3AF}", "quests_completed", 1, false),
    Achievement("Quest Warrior", "Complete 10 quests", "\U{2694}\U{FE0F}", "quests_completed", 10, false),
    Achievement("Quest Master", "Complete 50 quests", "\U{1F451}", "quests_completed", 50, false),
    Achievement("Level Up!", "Reach level 5", "\U{2B06}\U{FE0F}", "level", 5, false),
    Achievement("Veteran", "Reach level 10", "\U{1F31F}", "level", 10, false),
    Achievement("Legendary Hero", "Reach level 20", "\U{1F4AB}", "level", 20, false),
    Achievement("Wealthy", "Accumulate 1000 gold", "\U{1F4B0}", "gold_earned", 1000, false),
    Achievement("Monster Slayer", "Defeat 5 monsters", "\U{1F409}", "monsters_defeated", 5, false),
    Achievement("Shopping Spree", "Purchase 5 items", "\U{1F6CD}\U{FE0F}", "items_purchased", 5, false)
  ]
}

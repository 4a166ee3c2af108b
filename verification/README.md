# Quest Master progression engine in Dafny

This project models the core of Quest Master, a gamified to-do application.
Completing quests and winning battles earns experience (xp) and gold. Enough
xp raises the character's level, and each level raises its stats. Gold buys
items from a shop. Equipped items add bonuses to attack, defense and max
health. Achievements unlock when a statistic reaches a threshold. A social
layer computes an activity streak, a character's rank, and a public
leaderboard.

The SQLite database is replaced by one in-memory store,
`Database.Store`. It holds:

- maps from id to row for characters, quests and items;
- sequences for the inventory, achievement and battle tables.

Each state-changing operation is a method on the store. Each method is
proved against a pure function of the old state:

- `Leveling.Gain` for the level-up loop;
- `Equipment.AfterEquip` for equipping;
- `Leveling.Recalculated` for stat recomputation;
- `Achievements.AfterCheck` and `Achievements.NewlyUnlocked` for unlocking.

The properties the game promises are lemmas about those functions. Every
store method also keeps a table invariant, `Database.Consistent`:

- ids are fresh;
- inventory rows point at existing characters and items;
- every character has finished levelling up, has health at most max health,
  and has attack, defense and max health equal to its level's base value
  plus its equipped bonuses;
- no character wears two items of the same type.

Files:

- `wrappers.dfy`: `Option` and `Result`.
- `records.dfy`: the table rows, and the seeded shop and achievement rows as
  constants.
- `leveling.dfy`: the xp curve, the quest reward table, the level-up
  cascade, and the base stats with equipment bonuses.
- `equipment.dfy`: equipped bonuses, equipping one entry, and exclusivity
  per item type.
- `battle.dfy`: monster stats, clamped powers, the win rule and rewards.
- `achievements.dfy`: the unlock check over a stats map.
- `database.dfy`: the store, its invariant and its operations.
- `social.dfy`: the streak, the rank, and the leaderboard query with its
  defaults.

Where a value crosses the source's null or error conventions, the model uses
`Option` and `Result`:

- a missing character or quest gives `None`;
- `{'error': ...}` becomes `Err(ItemNotFound)`, `Err(NotEnoughGold)` or
  `Err(ItemNotInInventory)`.

Python's `x or default` returns the default for both NULL and a falsy value
(`''` or `0`). The model follows it for the leaderboard's defaults, as
`Social.EntryDefaults` states.

The leaderboard joins each character with its user row, so a public
character without a user row is left off it. `get_user_rank` has no such
join and still counts that character. The model carries this as the
`hasUser` flag of `Social.Profile`, and `Social.RankMatchesLeaderboard`
states how the two ranks relate with and without that flag.

## Model

| member | source | states |
|---|---|---|
| Leveling.XpForNextLevel | database.py:170-172 | The threshold is at least 100, and exactly 100 at level 1; computed as the exact integer `100*3^(L-1) div 2^(L-1)` |
| Leveling.ThresholdStep | database.py:170-172 | The threshold of level L+1 is strictly greater than that of level L |
| Leveling.ThresholdIncreasing | database.py:170-172 | The threshold is strictly increasing in the level, for any two levels |
| Leveling.QuestRewards | database.py:174-182 | easy/hard/epic give (20,10)/(100,50)/(200,100); every other difficulty, medium included, gives the medium reward (50,25); xp is always twice the gold |
| Leveling.HarderQuestNeverFewerLevels | database.py:174-182 | Completing a harder quest (easy < medium < hard < epic) never leaves the character at a lower level than an easier one, and pays strictly more gold |
| Leveling.LevelCost | database.py:254-256 | The xp consumed in climbing from one level to a higher one is non-negative and at least 100 per level |
| Leveling.LevelCostSnoc | database.py:254-256 | Climbing one more level costs exactly that level's threshold on top |
| Leveling.LevelCostIncreasing | database.py:254-256 | Climbing to a higher target level costs strictly more |
| Leveling.Promote | database.py:255-270 | Definition, no contract: one pass of the loop body, +1 level, +10 max health with health refilled to it, +3 attack, +2 defense; CascadeSpec states its effect over the loop |
| Leveling.Cascade | database.py:254-270 | Definition, no contract: the while loop as recursion on the pending xp; CascadeSpec, CascadeLevel and CascadeLevelMonotone state its properties |
| Leveling.CascadeSpec | database.py:254-270 | The level-up loop never lowers the level. It leaves xp below the final level's threshold and subtracts exactly the thresholds of the levels it climbed. Per level it adds +10 max health, +3 attack and +2 defense, and sets health to the new max health. With no level-up, health and the stats are unchanged |
| Leveling.CascadeStep | database.py:254-270 | One loop iteration (subtract the threshold, promote) leaves the loop's final outcome unchanged |
| Leveling.CascadeDone | database.py:254-272 | When xp is below the threshold, the loop stops and only the xp is written |
| Leveling.CascadeLevel | database.py:254-270 | The loop stops at the unique level whose climbing cost the pending xp covers, without also covering the next level |
| Leveling.TwoLevelUps | database.py:254-270 | A grant crossing exactly two thresholds gains two levels, +6 attack, +4 defense and +20 max health, and refills health to the new max |
| Leveling.CascadeLevelMonotone | database.py:254-270 | More pending xp never makes the loop stop at a lower level |
| Leveling.Gain | database.py:243-272 | Definition, no contract: gold added and xp run through the loop; GainSpec and GainMonotone state its properties |
| Leveling.GainSpec | database.py:243-272 | After `add_xp_and_gold`: gold is the old gold plus the gain. The level never decreases. The final xp is below the final level's threshold. The xp not consumed by level-ups is kept. The name is unchanged |
| Leveling.GainMonotone | database.py:243-272 | A larger grant of xp and gold never gives a lower level, less gold, or lower attack, defense or max health |
| Leveling.BaseAttack | database.py:467 | Definition, no contract: base attack 10 + (level-1)*3; Recalculated and CascadeKeepsStatsDerived use it |
| Leveling.BaseDefense | database.py:468 | Definition, no contract: base defense 5 + (level-1)*2 |
| Leveling.BaseMaxHealth | database.py:469 | Definition, no contract: base max health 100 + (level-1)*10 |
| Leveling.Recalculated | database.py:460-494 | attack = 10+3(L-1)+bonus, defense = 5+2(L-1)+bonus, max health = 100+10(L-1)+bonus. Health becomes min(old health, new max health). No other field changes |
| Leveling.RecalculatedIdempotent | database.py:460-494 | Recomputing the stats twice with the same bonuses gives the same character as once |
| Leveling.CascadeKeepsStatsDerived | database.py:254-270 | When the stats equal the level's base values plus the equipped bonuses, they still do after the level-up loop, and health stays within max health |
| Equipment.BonusOf | database.py:472-486 | Definition, no contract: the SUMs over the first n inventory rows of the owner's equipped items, 0 when there are none; NoEntriesNoBonus, EquipBonus and UnwornEntryAddsNoBonus state its properties |
| Equipment.EquippedBonus | database.py:472-486 | Definition, no contract: BonusOf over the whole inventory |
| Equipment.Unequipped | database.py:441-448 | The UPDATE touches no row's owner or item, clears the equipped flag of every row of the owner whose item has the given type, and leaves every other row unchanged |
| Equipment.AfterEquip | database.py:441-451 | The inventory keeps its length; AfterEquipSpec states the flags it sets |
| Equipment.AfterEquipSpec | database.py:441-451 | After equipping: the chosen entry is equipped. Every other entry of the same owner and type is unequipped. Entries of other owners or types are untouched. Only equipped flags change |
| Equipment.EquipKeepsOneWornPerKind | database.py:441-451 | When no character wears two items of one type, that still holds after equipping |
| Equipment.EquipBonus | database.py:441-451 | The owner's equipped bonus afterwards counts the chosen item and not the other items of its type |
| Equipment.EquipKeepsOtherOwnersBonus | database.py:441-451 | Equipping does not change any other character's equipped bonus |
| Equipment.UnwornEntryAddsNoBonus | database.py:390-394 | Appending an unequipped inventory row does not change any character's equipped bonus |
| Equipment.AppendUnwornKeepsOneWornPerKind | database.py:390-394 | Appending an unequipped row keeps at most one worn item per type |
| Equipment.NoEntriesNoBonus | database.py:472-486 | A character with no inventory rows has no bonus: SUM over no rows, `or 0` |
| Battle.MonsterFor | database.py:502-504 | Definition, no contract: health 50+20L, attack 5+3L, defense 3+2L; BattleMonster's contract restates them for the outcome |
| Battle.CharacterPower | database.py:507-510 | Definition, no contract: `max(attack - monster defense, 1)` |
| Battle.MonsterPower | database.py:508-511 | Definition, no contract: `max(monster attack - defense, 1)` |
| Battle.Wins | database.py:514 | Definition, no contract: higher power, or equal power and a level at least the monster's; TieBreak, StrongerCharacterStillWins and WeakerMonsterAlsoBeaten state its properties |
| Battle.AtLeastOne | database.py:510-511 | `max(x, 1)`: the result is at least 1 and at least x. It equals x when x is at least 1, and exactly 1 otherwise |
| Battle.BattleReward | database.py:516-525 | For a positive monster level, xp is always positive and gold is positive exactly on a win. A loss pays no gold |
| Battle.WinNeverLeavesWeaker | database.py:516-525 | Against a monster of level at least 0, winning never leaves the character at a lower level, with less gold, or with lower stats than losing would |
| Battle.TieBreak | database.py:514 | With equal powers, the character wins exactly when its level is at least the monster's level |
| Battle.StrongerCharacterStillWins | database.py:506-514 | Raising attack, defense or level never turns a win into a loss |
| Battle.WeakerMonsterAlsoBeaten | database.py:501-514 | A character that beats a level-L monster also beats every lower-level monster |
| Achievements.Qualifies | database.py:614 | Definition, no contract: locked, requirement type in the stats map, and stat at least the required value |
| Achievements.Evaluated | database.py:614-618 | Definition, no contract: a qualifying achievement becomes unlocked, any other is unchanged |
| Achievements.NewlyUnlocked | database.py:605-619 | Definition, no contract: the qualifying achievements in table order; NewlyUnlockedExactly states its membership |
| Achievements.AfterCheck | database.py:604-619 | The table keeps its length. An achievement is unlocked afterwards exactly when it was already unlocked or its requirement is met. Unlocks never revert. Only the unlocked flag changes. Unknown requirement types are left alone |
| Achievements.NewlyUnlockedExactly | database.py:604-624 | The result holds exactly the locked achievements whose requirement type is in the stats map and whose stat is at least the required value, each as often as it occurs in the table |
| Achievements.NothingQualifies | database.py:609-624 | When no achievement qualifies, the result is empty |
| Achievements.CheckIdempotent | database.py:604-624 | A second check with unchanged stats unlocks nothing and changes nothing |
| Achievements.MoreStatsUnlockMore | database.py:604-619 | With larger stats, every achievement unlocked under the smaller stats is unlocked too |
| Database.Catalogue | database.py:120-147 | The seeded shop has ids 1..12, holding the seeded items in insertion order |
| Database.NewCharacter | database.py:20-33 | A new character has level 1, 0 xp, 0 gold, 100/100 health, attack 10 and defense 5. Its stats are derived from its level, and it is normalised |
| Database.NewCharacterKeepsConsistent | database.py:185-198 | Inserting a new character under the next id keeps the table invariant |
| Database.NewQuestKeepsConsistent | database.py:275-291 | Inserting a quest under the next id keeps the table invariant |
| Database.GainKeepsConsistent | database.py:243-272 | `add_xp_and_gold` keeps the table invariant |
| Database.PurchaseKeepsConsistent | database.py:386-394 | Paying for an item and appending an unequipped row keeps the table invariant |
| Database.EquipKeepsConsistent | database.py:441-451 | Re-flagging the inventory keeps the invariant, except that the owner's stats await recomputation |
| Database.RecalculateRestoresConsistent | database.py:460-494 | Recomputing the pending character's stats restores the full invariant |
| Database.Store.constructor | database.py:14-168 | Empty character, quest, inventory and battle tables, with the seeded shop and achievements |
| Database.Store.CreateCharacter | database.py:185-198 | A new row with the next id and the default stats, and the invariant is kept |
| Database.Store.CreateQuest | database.py:275-291 | A new open quest with the next id, whose rewards come from the difficulty table |
| Database.Store.AddXpAndGold | database.py:243-272 | A missing character gives None and changes nothing. Otherwise the loop's result equals `Gain`, whose properties GainSpec states; only that row changes |
| Database.Store.CompleteQuest | database.py:319-345 | A missing or completed quest gives None and changes nothing. Otherwise the quest is marked completed, and the character receives exactly the stored xp and gold rewards (None if the character is missing) |
| Database.Store.PurchaseItem | database.py:367-404 | An unknown item gives ItemNotFound, and too little gold gives NotEnoughGold; both leave gold and inventory unchanged. On success, gold drops by exactly the price and one unequipped row is appended |
| Database.Store.RecalculateCharacterStats | database.py:460-494 | The character's row becomes `Recalculated` with its current equipped bonus, and the invariant is restored |
| Database.Store.EquipItem | database.py:420-458 | An entry the character does not own gives ItemNotInInventory and changes nothing. Otherwise the inventory becomes `AfterEquip` and the character's stats are recomputed |
| Database.Store.BattleMonster | database.py:497-550 | The monster is (50+20L, 5+3L, 3+2L). The win is decided by the clamped powers with the level tie-break. The reward is 30L/20L on a win and 5L/0 on a loss, paid through `Gain`. Exactly one battle record is appended |
| Database.Store.CheckAndUnlockAchievements | database.py:604-624 | The table becomes `AfterCheck` of the old table, and the result is `NewlyUnlocked` of the old table, in table order |
| Social.CalculateStreak | database_social.py:283-327 | 0 for no dates, and 0 when the latest date is neither today nor yesterday. Otherwise the streak is between 1 and the number of dates, the first streak dates are consecutive, and a gap (or the end) follows them |
| Social.StreakIsLongestRun | database_social.py:315-327 | A consecutive run followed by a gap is the longest consecutive prefix: no longer prefix is consecutive |
| Social.Consecutive | database_social.py:319-325 | Definition, no contract: each of the first n dates is exactly one day before the previous one |
| Social.FindProfile | database_social.py:260-266 | None exactly when no character has the id; otherwise the first row with that id |
| Social.Ahead | database_social.py:274-275 | Definition, no contract: public, and a higher level or the same level and more xp |
| Social.CountAhead | database_social.py:271-276 | Definition, no contract: COUNT(*) of the rows ahead; the CountAhead lemmas state its properties |
| Social.UserRank | database_social.py:255-281 | The rank is 0 exactly when the character is missing; RankOfRow states its value, 1 plus the public characters strictly ahead |
| Social.Listed | database_social.py:35-37 | Definition, no contract: `public_profile = 1` and the inner join finds the user row |
| Social.AtLeastAsHigh | database_social.py:45 | Definition, no contract: sorts no later under ORDER BY level DESC, xp DESC |
| Social.ListedRows | database_social.py:35-37 | The join and the filter: every row kept is public with a user row. Each such row of the table occurs exactly as often as in the table, and no other row occurs |
| Social.Insert | database_social.py:44-47 | Inserting into a list sorted by (level, xp) descending keeps it sorted and adds exactly that row |
| Social.SortDesc | database_social.py:44-47 | ORDER BY level DESC, xp DESC: the result is sorted and is a permutation of the input |
| Social.Limit | database_social.py:46 | LIMIT returns a prefix of the rows, of length `limit` when 0 <= limit < row count and of full length otherwise, so a negative LIMIT means no limit |
| Social.TopPublic | database_social.py:21-50 | Definition, no contract: the query as filter, sort and limit; TopPublicSpec states its properties |
| Social.TopPublicSpec | database_social.py:21-50 | The query's rows are sorted by (level, xp) descending, are all listed, and are drawn from the table. For a limit of at least 0 there are exactly min(limit, listed rows) of them; for a negative limit they are exactly the listed rows. No listed row left out is higher than any row returned |
| Social.EntryFor | database_social.py:55-69 | Definition, no contract: one leaderboard row built from a query row; EntryDefaults states its fields |
| Social.EntryDefaults | database_social.py:54-69 | An entry carries its rank and the row's columns. Class is 'Warrior' for NULL or '', avatar 1 for NULL or 0, theme 'orange' for NULL or '', and 0 quests and monsters for NULL; non-falsy values are copied |
| Social.LeaderboardSpec | database_social.py:44-69 | Ranks are 1..n in output order, and the order is non-increasing by (level, xp). There are min(limit, listed characters) entries, or all listed characters for a negative limit. Each entry is a listed character of the table |
| Social.LeaderboardIsTop | database_social.py:44-50 | No listed character left off the leaderboard is higher on (level, xp) than any entry on it |
| Social.Leaderboard | database_social.py:53-69 | Definition: `Numbered` applied to the query's rows; LeaderboardSpec and LeaderboardIsTop state its properties |
| Social.Numbered | database_social.py:53-69 | Definition: `enumerate(rows, 1)` as one `EntryFor` per row; NumberRows proves the append loop equal to it, and EntryDefaults states each entry's fields |
| Social.NumberRows | database_social.py:53-69 | The append loop over `enumerate(rows, 1)` builds exactly `Numbered(rows)` |
| Social.GetLeaderboard | database_social.py:21-71 | The query followed by the append loop returns exactly `Leaderboard` |
| Social.CountAheadPermutation | database_social.py:271-276 | COUNT(*) does not depend on row order: permuted tables give the same count |
| Social.CountAheadListed | database_social.py:271-276 | The leaderboard's listed rows never count more rows ahead than the whole table, and count the same when every public character has a user row |
| Social.CountAheadAtMostLength | database_social.py:271-276 | The count is at most the number of rows, equals it when all rows are ahead, and is 0 when none are |
| Social.CountAheadInSorted | database_social.py:271-276 | In a sorted public list, at most k rows are ahead of the k-th row, and exactly k when no earlier row ties with it |
| Social.EveryPublicHasUser | database_social.py:35-37 | Definition, no contract: the inner join drops no public character |
| Social.RankOfRow | database_social.py:260-281 | With distinct ids, a character in the table is ranked 1 plus the rows ahead of it |
| Social.TopRowAhead | database_social.py:44-50 | The k-th row of the query is a row of the table, and at most k listed rows are ahead of it, exactly k without an earlier tie |
| Social.RankMatchesLeaderboard | database_social.py:270-281 | With distinct ids and no earlier entry tied on (level, xp), a character's rank is at least its leaderboard rank. When every public character has a user row, the rank is at most the leaderboard rank, and equal to it without an earlier tie |
| Social.UserlessCharacterSkewsRank | database_social.py:35-37 | A public level-10 character with no user row puts a level-5 character at leaderboard rank 1 but user rank 2 |

## Left out

- The SQLite layer is not modelled: connections, the schema, commits and the `get_db`/`init_db` plumbing. Tables are store fields. `update_character`'s dynamic SQL becomes typed record updates.
- Row ids differ from the source. A new inventory row's id is its position in the inventory sequence, where the source uses the SQLite `lastrowid`. Character and quest ids come from counters starting at 1, like AUTOINCREMENT on empty tables.
- Timestamps are dropped: `created_at`, `completed_at`, `unlocked_at` and `battled_at` are not stored. In the leaderboard, `created_at` is an uninterpreted string.
- `get_or_create_character` is left out. Its implicit character-1 singleton is replaced by explicit character ids.
- Leveling.XpForNextLevel: computes `100*3^(L-1)` floor-divided by `2^(L-1)` exactly, where the source truncates the float `100*1.5**(L-1)`. The two can differ only at levels so high that the float loses precision.
- Database.Store.PurchaseItem: requires the character to exist whenever the item exists, because the source then reads `char['gold']` from a missing row and raises an exception rather than returning an error.
- Database.Store.BattleMonster: requires the character to exist, because the source reads its attack and defense unconditionally and raises an exception for a missing one.
- Database.Store.RecalculateCharacterStats: requires the character to exist, because the source reads `char['level']` from a missing row and raises an exception. Its callers always pass an existing character.
- Database.Store.AddXpAndGold: integers are unbounded. SQLite stores INTEGER columns in 64 bits, and the driver raises an overflow error for a value above 2^63-1. The source commits each level-up write of the loop before the final xp and gold write. So a grant that overflows leaves the row with the new level and stats but the old xp and gold, and the model cannot show that outcome.
- Database.Store.BattleMonster: the monster level is an unbounded `int`. The source takes it unchecked from the request body (app.py:141). A level near 10^18 makes the reward overflow 64 bits, with the partial row update described for AddXpAndGold and no battle row inserted. A float level gives float rewards stored as REAL. The model shows neither outcome.
- Database.Store.CheckAndUnlockAchievements: takes the stats map as an input instead of computing it with SQL aggregates. In the source, `quests_completed` and `gold_earned` are not filtered by character. `level` is read from a character that must exist.
- `get_statistics`, `get_battle_history`, `get_inventory`, `get_all_*`, `get_quest`, `get_character`, `delete_quest` and `get_weekly_activity_graph` are left out. They are reads or a plain row delete with no logic beyond SQL.
- `get_public_profile`, `get_public_profile_by_username`, `toggle_public_profile`, `increment_quest_counter` and `increment_monster_counter` are left out. They are SQL fetches and single-column updates.
- Social.CalculateStreak: dates are day numbers and `today` is a parameter, replacing `datetime.now()` and date parsing. The source's dates are distinct and descending from its SQL query. The model does not need that and accepts any list.
- Social.UserRank: is stated over the character table as a sequence. The leaderboard's join with the user table is modelled only as the `hasUser` flag; usernames and creation times are copied, not looked up.
- Social.Leaderboard: ignores `timeframe`, exactly as the source does. The source does not specify the order among characters tied on (level, xp); the model fixes one order.
- Concurrency between requests is not modelled; the source has no locking.
- Combo, critical-hit and rare-drop rewards are left out. The code does not implement them; they appear only as analytics parameters.
- The Flask routes, the browser scripts and the backup and audit-log scripts are not part of this model.

/**
 * Battle resolution of `battle_monster`: monster stats from its level,
 * clamped attack powers, the win rule with its level tie-break, and the
 * rewards of a win or a loss.
 */
module Battle {
  import opened Records
  import opened Leveling

  datatype Monster = Monster(name: string, level: int, health: int, attack: int, defense: int)

  /** A monster's stats are fixed by its level. */
  function MonsterFor(name: string, level: int): Monster
  {
    Monster(name, level, 50 + level * 20, 5 + level * 3, 3 + level * 2)
  }

  /** max(x, 1) */
  function AtLeastOne(x: int): (r: int)
    ensures r >= 1 && r >= x
    ensures x >= 1 ==> r == x
    ensures x < 1 ==> r == 1
  {
    if x < 1 then 1 else x
  }

  /** Damage the character deals: its attack past the monster's defense, at least 1. */
  function CharacterPower(attack: int, m: Monster): int
  {
    AtLeastOne(attack - m.defense)
  }

  /** Damage the monster deals: its attack past the character's defense, at least 1. */
  function MonsterPower(m: Monster, defense: int): int
  {
    AtLeastOne(m.attack - defense)
  }

  /** The character wins on higher power, or on equal power when its level is at least the monster's. */
  predicate Wins(attack: int, defense: int, level: int, m: Monster)
  {
    var mine, theirs := CharacterPower(attack, m), MonsterPower(m, defense);
    mine > theirs || (mine == theirs && level >= m.level)
  }

  /** A win pays 30 xp and 20 gold per monster level; a loss pays 5 xp per level and no gold. */
  function BattleReward(won: bool, monsterLevel: int): (r: Reward)
    ensures monsterLevel >= 1 ==> r.xp > 0 && (r.gold > 0 <==> won)
    ensures !won ==> r.gold == 0
  {
    if won then Reward(30 * monsterLevel, 20 * monsterLevel) else Reward(5 * monsterLevel, 0)
  }

  /**
   * Against a monster of non-negative level, winning never leaves the
   * character worse off than losing would: no lower level, no less gold,
   * and stats no lower.
   */
  lemma WinNeverLeavesWeaker(c: Character, monsterLevel: int)
    requires monsterLevel >= 0
    ensures var won, lost := BattleReward(true, monsterLevel), BattleReward(false, monsterLevel);
            var w, l := Gain(c, won.xp, won.gold), Gain(c, lost.xp, lost.gold);
            && l.level <= w.level && l.gold <= w.gold
            && l.attack <= w.attack && l.defense <= w.defense && l.maxHealth <= w.maxHealth
  {
    var won, lost := BattleReward(true, monsterLevel), BattleReward(false, monsterLevel);
    GainMonotone(c, lost.xp, lost.gold, won.xp, won.gold);
  }

  /** On equal powers the level decides: equal or higher level wins, lower level loses. */
  lemma TieBreak(attack: int, defense: int, level: int, m: Monster)
    requires CharacterPower(attack, m) == MonsterPower(m, defense)
    ensures Wins(attack, defense, level, m) <==> level >= m.level
  {
  }

  /** More attack, more defense or a higher level never turn a win into a loss. */
  lemma StrongerCharacterStillWins(attack: int, defense: int, level: int, attack': int, defense': int, level': int, m: Monster)
    requires attack <= attack' && defense <= defense' && level <= level'
    requires Wins(attack, defense, level, m)
    ensures Wins(attack', defense', level', m)
  {
  }

  /** Beating a monster means beating every lower-level monster as well. */
  lemma {:induction false} WeakerMonsterAlsoBeaten(attack: int, defense: int, level: int, name: string, monsterLevel: int, lower: int)
    requires lower <= monsterLevel
    requires Wins(attack, defense, level, MonsterFor(name, monsterLevel))
    ensures Wins(attack, defense, level, MonsterFor(name, lower))
    decreases monsterLevel - lower
  {
    if lower < monsterLevel {
      var m, m' := MonsterFor(name, monsterLevel), MonsterFor(name, monsterLevel - 1);
      assert CharacterPower(attack, m') >= CharacterPower(attack, m);
      assert MonsterPower(m', defense) <= MonsterPower(m, defense);
      WeakerMonsterAlsoBeaten(attack, defense, level, name, monsterLevel - 1, lower);
    }
  }
}

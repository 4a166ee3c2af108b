/**
 * The leveling model: the experience curve, the quest reward table, the
 * level-up cascade of `add_xp_and_gold` and the recomputation of derived
 * stats from level and equipment.
 */
module Leveling {
  import opened Records

  function Pow(base: nat, n: nat): (r: nat)
    ensures base >= 1 ==> r >= 1
  {
    if n == 0 then 1 else base * Pow(base, n - 1)
  }

  /** 3^n dominates 2^n. */
  lemma {:induction false} PowThreeAtLeastPowTwo(n: nat)
    ensures Pow(3, n) >= Pow(2, n)
  {
    if n > 0 {
      PowThreeAtLeastPowTwo(n - 1);
    }
  }

  /** Multiplying by a non-negative factor keeps the order. */
  lemma MulLeft(a: int, b: int, d: int)
    requires a <= b && d >= 0
    ensures a * d <= b * d
  {
    assert (b - a) * d >= 0;
    assert (b - a) * d == b * d - a * d;
  }

  /** Floor division is bounded below by any y with y * d <= x. */
  lemma DivAtLeast(x: int, d: int, y: int)
    requires d > 0 && y * d <= x
    ensures y <= x / d
  {
    var q, r := x / d, x % d;
    assert x == q * d + r && r < d;
    assert y * d < (q + 1) * d;
    if y > q {
      MulLeft(q + 1, y, d);
      assert false;
    }
  }

  /** The quotient times the divisor does not exceed the dividend. */
  lemma QuotientTimesDivisor(x: int, d: int)
    requires d > 0
    ensures (x / d) * d <= x
  {
  }

  /**
   * XP needed to leave `level`: 100 * 1.5^(level-1), truncated, computed
   * exactly as 100 * 3^(level-1) / 2^(level-1).
   */
  function XpForNextLevel(level: Level): (t: int)
    ensures t >= 100
    ensures level == 1 ==> t == 100
  {
    PowThreeAtLeastPowTwo(level - 1);
    DivAtLeast(100 * Pow(3, level - 1), Pow(2, level - 1), 100);
    100 * Pow(3, level - 1) / Pow(2, level - 1)
  }

  /** Multiplying a quotient of at least 2 by 3/2 strictly increases it. */
  lemma ThreeHalvesQuotient(a: int, b: int)
    requires b > 0 && a / b >= 2
    ensures a / b < (3 * a) / (2 * b)
  {
    var q := a / b;
    QuotientTimesDivisor(a, b);
    var m := q * b;
    assert 2 * b <= m by {
      assert m - 2 * b == (q - 2) * b;
    }
    assert (q + 1) * (2 * b) == 2 * m + 2 * b;
    DivAtLeast(3 * a, 2 * b, q + 1);
  }

  /** Each level costs strictly more experience than the one before. */
  lemma ThresholdStep(level: Level)
    ensures XpForNextLevel(level) < XpForNextLevel(level + 1)
  {
    var k: nat := level - 1;
    var a, b := 100 * Pow(3, k), Pow(2, k);
    assert a / b == XpForNextLevel(level);
    assert 100 * Pow(3, k + 1) == 3 * a && Pow(2, k + 1) == 2 * b;
    ThreeHalvesQuotient(a, b);
  }

  /** The threshold is strictly increasing in the level. */
  lemma {:induction false} ThresholdIncreasing(low: Level, high: Level)
    requires low < high
    ensures XpForNextLevel(low) < XpForNextLevel(high)
    decreases (high as int) - (low as int)
  {
    ThresholdStep(low);
    if low + 1 < high {
      ThresholdIncreasing(low + 1, high);
    }
  }

  /**
   * The reward table keyed by difficulty; anything that is not one of the
   * four known difficulties is paid as "medium".
   */
  function QuestRewards(difficulty: string): (r: Reward)
    ensures r.xp == 2 * r.gold
    ensures difficulty == "easy" ==> r == Reward(20, 10)
    ensures difficulty == "hard" ==> r == Reward(100, 50)
    ensures difficulty == "epic" ==> r == Reward(200, 100)
    ensures difficulty !in {"easy", "hard", "epic"} ==> r == Reward(50, 25)
  {
    if difficulty == "easy" then Reward(20, 10)
    else if difficulty == "hard" then Reward(100, 50)
    else if difficulty == "epic" then Reward(200, 100)
    else Reward(50, 25)
  }

  /** Total experience needed to climb from level `from` to level `to`. */
  function LevelCost(from: Level, to: int): (cost: int)
    ensures cost >= 0
    ensures to > from ==> cost >= 100 * (to - from)
    decreases (to as int) - (from as int)
  {
    if to <= from then 0 else XpForNextLevel(from) + LevelCost(from + 1, to)
  }

  /** Peeling the last level off the climb. */
  lemma {:induction false} LevelCostSnoc(from: Level, to: Level)
    requires from <= to
    ensures LevelCost(from, to + 1) == LevelCost(from, to) + XpForNextLevel(to)
    decreases (to as int) - (from as int)
  {
    if from < to {
      LevelCostSnoc(from + 1, to);
    }
  }

  /** Climbing more levels costs strictly more. */
  lemma {:induction false} LevelCostIncreasing(from: Level, low: Level, high: Level)
    requires from <= low < high
    ensures LevelCost(from, low) < LevelCost(from, high)
    decreases (high as int) - (low as int)
  {
    LevelCostSnoc(from, low);
    if low + 1 < high {
      LevelCostIncreasing(from, low + 1, high);
    }
  }

  /**
   * One pass of the level-up loop body: one more level, +10 max health,
   * +3 attack, +2 defense, and health refilled to the new max health.
   */
  function Promote(c: Character): Character
  {
    c.(level := c.level + 1, maxHealth := c.maxHealth + 10, health := c.maxHealth + 10,
       attack := c.attack + 3, defense := c.defense + 2)
  }

  /**
   * The level-up cascade: while the pending experience reaches the current
   * threshold, pay it and promote; the rest is kept as the new xp.
   */
  function Cascade(c: Character, pending: int): Character
    decreases pending
  {
    if pending >= XpForNextLevel(c.level) then
      Cascade(Promote(c), pending - XpForNextLevel(c.level))
    else
      c.(xp := pending)
  }

  /**
   * The cascade never lowers the level, leaves xp below the threshold of
   * the level reached, subtracts exactly the thresholds of the levels it
   * climbed, and bumps the stats by the fixed amounts once per level.
   */
  lemma {:induction false} CascadeSpec(c: Character, pending: int)
    ensures var r := Cascade(c, pending);
            && r.level >= c.level
            && r.xp < XpForNextLevel(r.level)
            && r.xp == pending - LevelCost(c.level, r.level)
            && (r.level > c.level ==> r.xp >= 0)
            && r == c.(level := r.level, xp := r.xp,
                       maxHealth := c.maxHealth + 10 * (r.level - c.level),
                       health := if r.level == c.level then c.health else c.maxHealth + 10 * (r.level - c.level),
                       attack := c.attack + 3 * (r.level - c.level),
                       defense := c.defense + 2 * (r.level - c.level))
    decreases pending
  {
    if pending >= XpForNextLevel(c.level) {
      CascadeSpec(Promote(c), pending - XpForNextLevel(c.level));
    }
  }

  /** One level-up pass leaves the final outcome of the cascade unchanged. */
  lemma CascadeStep(c: Character, pending: int)
    requires pending >= XpForNextLevel(c.level)
    ensures Cascade(c, pending) == Cascade(Promote(c), pending - XpForNextLevel(c.level))
  {
  }

  /** Below the threshold the cascade only records the pending experience. */
  lemma CascadeDone(c: Character, pending: int)
    requires pending < XpForNextLevel(c.level)
    ensures Cascade(c, pending) == c.(xp := pending)
  {
  }

  /**
   * The level the cascade stops at is the unique one whose climbing cost
   * the pending experience covers without covering the next level too.
   */
  lemma CascadeLevel(c: Character, pending: int, level: Level)
    requires level >= c.level
    requires LevelCost(c.level, level) <= pending < LevelCost(c.level, level + 1)
    ensures Cascade(c, pending).level == level
  {
    var r := Cascade(c, pending);
    CascadeSpec(c, pending);
    if r.level < level {
      LevelCostSnoc(c.level, r.level);
      if r.level + 1 < level {
        LevelCostIncreasing(c.level, r.level + 1, level);
      }
      assert false;
    } else if r.level > level {
      if level + 1 < r.level {
        LevelCostIncreasing(c.level, level + 1, r.level);
      }
      assert false;
    }
  }

  /** Crossing exactly two thresholds in one grant gains two levels and two stat bumps. */
  lemma TwoLevelUps(c: Character, gain: int)
    requires XpForNextLevel(c.level) + XpForNextLevel(c.level + 1) <= c.xp + gain
    requires c.xp + gain < XpForNextLevel(c.level) + XpForNextLevel(c.level + 1) + XpForNextLevel(c.level + 2)
    ensures Cascade(c, c.xp + gain).level == c.level + 2
    ensures Cascade(c, c.xp + gain).attack == c.attack + 6
    ensures Cascade(c, c.xp + gain).defense == c.defense + 4
    ensures Cascade(c, c.xp + gain).maxHealth == c.maxHealth + 20
    ensures Cascade(c, c.xp + gain).health == c.maxHealth + 20
  {
    var l := c.level;
    LevelCostSnoc(l, l + 1);
    LevelCostSnoc(l, l + 2);
    CascadeLevel(c, c.xp + gain, l + 2);
    CascadeSpec(c, c.xp + gain);
  }

  /**
   * What `add_xp_and_gold` does to an existing character: the gold is
   * added outright and the experience goes through the cascade.
   */
  function Gain(c: Character, xp: int, gold: int): Character
  {
    Cascade(c, c.xp + xp).(gold := c.gold + gold)
  }

  /**
   * The gold is added outright; the level only rises, the xp left over is
   * below the new level's threshold, and exactly the thresholds of the
   * levels gained were paid out of the old xp plus the grant.
   */
  lemma GainSpec(c: Character, xp: int, gold: int)
    ensures var r := Gain(c, xp, gold);
            && r.gold == c.gold + gold
            && r.level >= c.level
            && r.xp < XpForNextLevel(r.level)
            && r.xp == c.xp + xp - LevelCost(c.level, r.level)
            && r.name == c.name
  {
    CascadeSpec(c, c.xp + xp);
  }

  /**
   * More pending experience never ends the cascade at a lower level: the
   * level reached is monotone in the experience granted.
   */
  lemma CascadeLevelMonotone(c: Character, less: int, more: int)
    requires less <= more
    ensures Cascade(c, less).level <= Cascade(c, more).level
  {
    var low, high := Cascade(c, less), Cascade(c, more);
    CascadeSpec(c, less);
    CascadeSpec(c, more);
    if high.level < low.level {
      LevelCostSnoc(c.level, high.level);
      if high.level + 1 < low.level {
        LevelCostIncreasing(c.level, high.level + 1, low.level);
      }
      assert false;
    }
  }

  /**
   * A larger grant of experience and gold leaves the character at least as
   * far along: no lower level, no less gold, and stats no lower.
   */
  lemma GainMonotone(c: Character, xp: int, gold: int, xp': int, gold': int)
    requires xp <= xp' && gold <= gold'
    ensures var r, r' := Gain(c, xp, gold), Gain(c, xp', gold');
            && r.level <= r'.level && r.gold <= r'.gold
            && r.attack <= r'.attack && r.defense <= r'.defense && r.maxHealth <= r'.maxHealth
  {
    CascadeLevelMonotone(c, c.xp + xp, c.xp + xp');
    CascadeSpec(c, c.xp + xp);
    CascadeSpec(c, c.xp + xp');
  }

  /**
   * Completing a harder quest (easy < medium < hard < epic) never leaves the
   * character at a lower level than an easier one would, and pays strictly
   * more gold.
   */
  lemma HarderQuestNeverFewerLevels(c: Character, easier: nat, harder: nat)
    requires easier < harder < 4
    ensures var e := QuestRewards(["easy", "medium", "hard", "epic"][easier]);
            var h := QuestRewards(["easy", "medium", "hard", "epic"][harder]);
            && Gain(c, e.xp, e.gold).level <= Gain(c, h.xp, h.gold).level
            && Gain(c, e.xp, e.gold).gold < Gain(c, h.xp, h.gold).gold
  {
    var e := QuestRewards(["easy", "medium", "hard", "epic"][easier]);
    var h := QuestRewards(["easy", "medium", "hard", "epic"][harder]);
    assert e.xp < h.xp && e.gold < h.gold;
    GainMonotone(c, e.xp, e.gold, h.xp, h.gold);
  }

  /** Base stats derived from the level alone. */
  function BaseAttack(level: Level): int { 10 + (level - 1) * 3 }

  function BaseDefense(level: Level): int { 5 + (level - 1) * 2 }

  function BaseMaxHealth(level: Level): int { 100 + (level - 1) * 10 }

  /** Summed bonuses of the equipped items. */
  datatype Bonus = Bonus(attack: int, defense: int, health: int)
  {
    function Plus(other: Bonus): Bonus
    {
      Bonus(attack + other.attack, defense + other.defense, health + other.health)
    }
  }

  const NoBonus := Bonus(0, 0, 0)

  /** attack, defense and max health are the level's base plus the equipment bonus. */
  predicate StatsDerived(c: Character, b: Bonus)
  {
    && c.attack == BaseAttack(c.level) + b.attack
    && c.defense == BaseDefense(c.level) + b.defense
    && c.maxHealth == BaseMaxHealth(c.level) + b.health
  }

  /**
   * `recalculate_character_stats`: derived stats rebuilt from level and
   * bonus; health is capped by the new max health and never raised.
   */
  function Recalculated(c: Character, b: Bonus): (r: Character)
    ensures StatsDerived(r, b)
    ensures r.health <= r.maxHealth && r.health <= c.health
    ensures r.health == c.health || r.health == r.maxHealth
    ensures r.(attack := c.attack, defense := c.defense, maxHealth := c.maxHealth, health := c.health) == c
  {
    var maxHealth := BaseMaxHealth(c.level) + b.health;
    c.(attack := BaseAttack(c.level) + b.attack, defense := BaseDefense(c.level) + b.defense,
       maxHealth := maxHealth, health := if c.health < maxHealth then c.health else maxHealth)
  }

  /** Recomputing twice with the same equipment changes nothing more. */
  lemma RecalculatedIdempotent(c: Character, b: Bonus)
    ensures Recalculated(Recalculated(c, b), b) == Recalculated(c, b)
  {
  }

  /**
   * The fixed per-level bumps agree with the base-stat formulas, so a
   * character whose stats were derived from level and equipment still is
   * after any number of level-ups, and health stays within max health.
   */
  lemma CascadeKeepsStatsDerived(c: Character, pending: int, b: Bonus)
    requires StatsDerived(c, b) && c.health <= c.maxHealth
    ensures StatsDerived(Cascade(c, pending), b)
    ensures Cascade(c, pending).health <= Cascade(c, pending).maxHealth
  {
    CascadeSpec(c, pending);
  }
}

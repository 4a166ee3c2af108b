/**
 * Equipment: the bonus sum over a character's equipped inventory entries,
 * and the flag changes of `equip_item`, which keeps at most one equipped
 * entry per item type for each character.
 */
module Equipment {
  import opened Records
  import opened Leveling

  /** Which equipped entries a bonus sum ranges over. */
  datatype Selector = AnyKind | OtherKinds(kind: string)

  predicate Selected(sel: Selector, kind: string)
  {
    sel.AnyKind? || kind != sel.kind
  }

  /** The entry is worn by `owner`, its item row exists (the join) and its type is selected. */
  predicate Counted(e: InventoryEntry, items: map<int, Item>, owner: int, sel: Selector)
  {
    e.owner == owner && e.equipped && e.item in items && Selected(sel, items[e.item].kind)
  }

  function ItemBonus(it: Item): Bonus
  {
    Bonus(it.attackBonus, it.defenseBonus, it.healthBonus)
  }

  /** What entry `e` adds to a selected sum: its item's bonuses when counted, nothing otherwise. */
  function Contribution(e: InventoryEntry, items: map<int, Item>, owner: int, sel: Selector): Bonus
  {
    if Counted(e, items, owner, sel) then ItemBonus(items[e.item]) else NoBonus
  }

  /**
   * Sum of the bonuses of the selected equipped entries of `owner` among the
   * first `n` inventory rows (SQL SUM over no rows is NULL, read as 0).
   */
  function BonusOf(inv: seq<InventoryEntry>, items: map<int, Item>, owner: int, sel: Selector, n: nat): Bonus
    requires n <= |inv|
  {
    if n == 0 then NoBonus
    else BonusOf(inv, items, owner, sel, n - 1).Plus(Contribution(inv[n - 1], items, owner, sel))
  }

  /** The bonus `recalculate_character_stats` adds to the base stats. */
  function EquippedBonus(inv: seq<InventoryEntry>, items: map<int, Item>, owner: int): Bonus
  {
    BonusOf(inv, items, owner, AnyKind, |inv|)
  }

  /** An entry whose item row exists, together with that item's type. */
  predicate OfKind(e: InventoryEntry, items: map<int, Item>, kind: string)
  {
    e.item in items && items[e.item].kind == kind
  }

  /** No character wears two entries of the same item type. */
  ghost predicate AtMostOneWornPerKind(inv: seq<InventoryEntry>, items: map<int, Item>)
  {
    forall i, j :: 0 <= i < j < |inv| && inv[i].equipped && inv[j].equipped
                   && inv[i].owner == inv[j].owner && inv[i].item in items && inv[j].item in items
                   ==> items[inv[i].item].kind != items[inv[j].item].kind
  }

  /** The flag of entry `e` after entry `chosen` of type `kind` was equipped for `owner`. */
  function Reflag(e: InventoryEntry, isChosen: bool, items: map<int, Item>, owner: int, kind: string): InventoryEntry
  {
    if isChosen then e.(equipped := true)
    else if e.owner == owner && OfKind(e, items, kind) then e.(equipped := false)
    else e
  }

  /** The first UPDATE of `equip_item`: every entry of `owner` whose item has type `kind` is taken off. */
  function Unequipped(inv: seq<InventoryEntry>, items: map<int, Item>, owner: int, kind: string): (r: seq<InventoryEntry>)
    ensures |r| == |inv|
    ensures forall i :: 0 <= i < |r| ==> r[i].owner == inv[i].owner && r[i].item == inv[i].item
    ensures forall i :: 0 <= i < |r| && inv[i].owner == owner && OfKind(inv[i], items, kind) ==> !r[i].equipped
    ensures forall i :: 0 <= i < |r| && !(inv[i].owner == owner && OfKind(inv[i], items, kind)) ==> r[i] == inv[i]
  {
    seq(|inv|, i requires 0 <= i < |inv| => Reflag(inv[i], false, items, owner, kind))
  }

  /** The inventory after `equip_item` equipped entry `chosen` of `owner`: both UPDATEs applied. */
  function AfterEquip(inv: seq<InventoryEntry>, items: map<int, Item>, owner: int, chosen: nat): (r: seq<InventoryEntry>)
    requires chosen < |inv| && inv[chosen].owner == owner && inv[chosen].item in items
    ensures |r| == |inv|
  {
    var u := Unequipped(inv, items, owner, items[inv[chosen].item].kind);
    u[chosen := u[chosen].(equipped := true)]
  }

  /**
   * After equipping, the chosen entry is the only equipped entry of its
   * type for that owner, entries of other types or other owners are
   * untouched, and nothing but the equipped flags changes.
   */
  lemma AfterEquipSpec(inv: seq<InventoryEntry>, items: map<int, Item>, owner: int, chosen: nat)
    requires chosen < |inv| && inv[chosen].owner == owner && inv[chosen].item in items
    ensures var r := AfterEquip(inv, items, owner, chosen);
            && r[chosen] == inv[chosen].(equipped := true)
            && (forall i :: (0 <= i < |r| && i != chosen && r[i].owner == owner
                             && OfKind(r[i], items, items[inv[chosen].item].kind)) ==> !r[i].equipped)
            && (forall i :: 0 <= i < |r| ==> r[i].owner == inv[i].owner && r[i].item == inv[i].item)
            && (forall i :: 0 <= i < |r| ==> r[i].(equipped := inv[i].equipped) == inv[i])
            && (forall i :: (0 <= i < |r| && (inv[i].owner != owner || !OfKind(inv[i], items, items[inv[chosen].item].kind)))
                            ==> r[i] == inv[i])
  {
  }

  /** Entry by entry, equipping is the `Reflag` of each entry. */
  lemma AfterEquipReflags(inv: seq<InventoryEntry>, items: map<int, Item>, owner: int, chosen: nat, i: nat)
    requires chosen < |inv| && inv[chosen].owner == owner && inv[chosen].item in items && i < |inv|
    ensures AfterEquip(inv, items, owner, chosen)[i] == Reflag(inv[i], i == chosen, items, owner, items[inv[chosen].item].kind)
  {
  }

  /** Equipping keeps the one-per-type invariant. */
  lemma EquipKeepsOneWornPerKind(inv: seq<InventoryEntry>, items: map<int, Item>, owner: int, chosen: nat)
    requires chosen < |inv| && inv[chosen].owner == owner && inv[chosen].item in items
    requires AtMostOneWornPerKind(inv, items)
    ensures AtMostOneWornPerKind(AfterEquip(inv, items, owner, chosen), items)
  {
    var r := AfterEquip(inv, items, owner, chosen);
    var kind := items[inv[chosen].item].kind;
    AfterEquipSpec(inv, items, owner, chosen);
    forall i, j | 0 <= i < j < |r| && r[i].equipped && r[j].equipped && r[i].owner == r[j].owner
                  && r[i].item in items && r[j].item in items
      ensures items[r[i].item].kind != items[r[j].item].kind
    {
      if r[i].owner == owner && items[r[i].item].kind == kind {
        assert i == chosen;
        assert j != chosen;
      } else if r[j].owner == owner && items[r[j].item].kind == kind {
        assert j == chosen;
      } else {
        assert r[i] == inv[i] && r[j] == inv[j];
      }
    }
  }

  /** The contribution of one entry before and after the flags were changed. */
  lemma ReflagContribution(e: InventoryEntry, isChosen: bool, items: map<int, Item>, owner: int, kind: string)
    requires isChosen ==> e.owner == owner && OfKind(e, items, kind)
    ensures Contribution(Reflag(e, isChosen, items, owner, kind), items, owner, AnyKind)
         == if isChosen then ItemBonus(items[e.item]) else Contribution(e, items, owner, OtherKinds(kind))
  {
  }

  lemma ReflagBonusPrefix(inv: seq<InventoryEntry>, r: seq<InventoryEntry>, items: map<int, Item>, owner: int,
                          kind: string, chosen: nat, n: nat)
    requires |r| == |inv| && n <= |inv| && chosen < |inv|
    requires inv[chosen].owner == owner && OfKind(inv[chosen], items, kind)
    requires r == AfterEquip(inv, items, owner, chosen) && kind == items[inv[chosen].item].kind
    ensures BonusOf(r, items, owner, AnyKind, n)
         == if chosen < n then BonusOf(inv, items, owner, OtherKinds(kind), n).Plus(ItemBonus(items[inv[chosen].item]))
            else BonusOf(inv, items, owner, OtherKinds(kind), n)
  {
    if n > 0 {
      ReflagBonusPrefix(inv, r, items, owner, kind, chosen, n - 1);
      AfterEquipReflags(inv, items, owner, chosen, n - 1);
      ReflagContribution(inv[n - 1], n - 1 == chosen, items, owner, kind);
    }
  }

  /**
   * After equipping, the owner's equipment bonus is the bonus of its other
   * item types plus exactly the chosen item's bonus: a previously worn item
   * of the same type no longer counts.
   */
  lemma EquipBonus(inv: seq<InventoryEntry>, items: map<int, Item>, owner: int, chosen: nat)
    requires chosen < |inv| && inv[chosen].owner == owner && inv[chosen].item in items
    ensures EquippedBonus(AfterEquip(inv, items, owner, chosen), items, owner)
         == BonusOf(inv, items, owner, OtherKinds(items[inv[chosen].item].kind), |inv|).Plus(ItemBonus(items[inv[chosen].item]))
  {
    var r := AfterEquip(inv, items, owner, chosen);
    ReflagBonusPrefix(inv, r, items, owner, items[inv[chosen].item].kind, chosen, |inv|);
  }

  lemma OtherOwnerBonusPrefix(inv: seq<InventoryEntry>, r: seq<InventoryEntry>, items: map<int, Item>, owner: int,
                              kind: string, chosen: nat, other: int, n: nat)
    requires |r| == |inv| && n <= |inv| && chosen < |inv| && other != owner
    requires inv[chosen].owner == owner && inv[chosen].item in items
    requires r == AfterEquip(inv, items, owner, chosen) && kind == items[inv[chosen].item].kind
    ensures BonusOf(r, items, other, AnyKind, n) == BonusOf(inv, items, other, AnyKind, n)
  {
    if n > 0 {
      OtherOwnerBonusPrefix(inv, r, items, owner, kind, chosen, other, n - 1);
      AfterEquipReflags(inv, items, owner, chosen, n - 1);
    }
  }

  /** Equipping for one character leaves every other character's bonus as it was. */
  lemma EquipKeepsOtherOwnersBonus(inv: seq<InventoryEntry>, items: map<int, Item>, owner: int, chosen: nat, other: int)
    requires chosen < |inv| && inv[chosen].owner == owner && inv[chosen].item in items
    requires other != owner
    ensures EquippedBonus(AfterEquip(inv, items, owner, chosen), items, other) == EquippedBonus(inv, items, other)
  {
    var r := AfterEquip(inv, items, owner, chosen);
    OtherOwnerBonusPrefix(inv, r, items, owner, items[inv[chosen].item].kind, chosen, other, |inv|);
  }

  lemma AppendPrefix(inv: seq<InventoryEntry>, items: map<int, Item>, e: InventoryEntry, owner: int, n: nat)
    requires n <= |inv|
    ensures BonusOf(inv + [e], items, owner, AnyKind, n) == BonusOf(inv, items, owner, AnyKind, n)
  {
    if n > 0 {
      AppendPrefix(inv, items, e, owner, n - 1);
    }
  }

  /** A newly bought, unequipped entry changes no character's bonus. */
  lemma UnwornEntryAddsNoBonus(inv: seq<InventoryEntry>, items: map<int, Item>, e: InventoryEntry, owner: int)
    requires !e.equipped
    ensures EquippedBonus(inv + [e], items, owner) == EquippedBonus(inv, items, owner)
  {
    AppendPrefix(inv, items, e, owner, |inv|);
  }

  /** Appending an unequipped entry keeps the one-per-type invariant. */
  lemma AppendUnwornKeepsOneWornPerKind(inv: seq<InventoryEntry>, items: map<int, Item>, e: InventoryEntry)
    requires !e.equipped && AtMostOneWornPerKind(inv, items)
    ensures AtMostOneWornPerKind(inv + [e], items)
  {
  }

  /** A character with no inventory rows has no equipment bonus, so its stats are the base ones. */
  lemma {:induction false} NoEntriesNoBonus(inv: seq<InventoryEntry>, items: map<int, Item>, owner: int, n: nat)
    requires n <= |inv|
    requires forall i :: 0 <= i < |inv| ==> inv[i].owner != owner
    ensures BonusOf(inv, items, owner, AnyKind, n) == NoBonus
  {
    if n > 0 {
      NoEntriesNoBonus(inv, items, owner, n - 1);
      var e := inv[n - 1];
      assert e.owner != owner;
      assert !Counted(e, items, owner, AnyKind);
    }
  }
}

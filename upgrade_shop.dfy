/** upgradeMenu.c: the damage-upgrade price, the three purchases and the
    key handling of the upgrade screen. */
module UpgradeShop {

  /** PlayerUpgrades as the game uses it: a damage level and two unlock
      flags. */
  datatype Upgrades = Upgrades(damageLevel: int, doubleShots: bool, tripleShots: bool)

  /** The UpgradeOption values; OPTION_COUNT is the number of options. */
  const OPTION_DAMAGE: int := 0
  const OPTION_DOUBLE: int := 1
  const OPTION_TRIPLE: int := 2
  const OPTION_BACK: int := 3
  const OPTION_COUNT: int := 4

  const MAX_DAMAGE_COST: int := 500
  const DOUBLE_SHOTS_COST: int := 1000
  const TRIPLE_SHOTS_COST: int := 2000

  /** get_damage_upgrade_cost */
  function DamageUpgradeCost(level: int): int
  {
    var cost := 100 + 50 * level;
    if cost > MAX_DAMAGE_COST then MAX_DAMAGE_COST else cost
  }

  /** The price is 100 + 50 per level already bought, and 500 from level 8
      on; it never falls as the level rises. */
  lemma DamageUpgradeCostRules(level: int, higher: int)
    requires level <= higher
    ensures level <= 8 ==> DamageUpgradeCost(level) == 100 + 50 * level
    ensures level >= 8 ==> DamageUpgradeCost(level) == MAX_DAMAGE_COST
    ensures level >= 0 ==> 100 <= DamageUpgradeCost(level) <= MAX_DAMAGE_COST
    ensures DamageUpgradeCost(level) <= DamageUpgradeCost(higher)
  {
  }

  /** The ENTER/SPACE branch of update_upgrade_menu on the coins and the
      upgrades: each purchase happens only when it is affordable (and, for
      the two flags, not yet owned); any other option changes nothing. */
  function Purchase(option: int, coins: int, u: Upgrades): (int, Upgrades)
  {
    if option == OPTION_DAMAGE && coins >= DamageUpgradeCost(u.damageLevel) then
      (coins - DamageUpgradeCost(u.damageLevel), u.(damageLevel := u.damageLevel + 1))
    else if option == OPTION_DOUBLE && coins >= DOUBLE_SHOTS_COST && !u.doubleShots then
      (coins - DOUBLE_SHOTS_COST, u.(doubleShots := true))
    else if option == OPTION_TRIPLE && coins >= TRIPLE_SHOTS_COST && !u.tripleShots then
      (coins - TRIPLE_SHOTS_COST, u.(tripleShots := true))
    else (coins, u)
  }

  /** What a change of upgrades is worth: the damage-level steps bought
      (at the price of each step) plus the flags newly unlocked. */
  function Price(before: Upgrades, after: Upgrades): int
  {
    (if after.damageLevel == before.damageLevel + 1 then DamageUpgradeCost(before.damageLevel) else 0)
    + (if after.doubleShots && !before.doubleShots then DOUBLE_SHOTS_COST else 0)
    + (if after.tripleShots && !before.tripleShots then TRIPLE_SHOTS_COST else 0)
  }

  /** Coins are conserved: a purchase takes exactly the price of what it
      added, changes at most one upgrade, never takes flags away and never
      makes non-negative coins negative. With a non-negative damage level
      every price is positive, so the upgrades change exactly when coins
      are spent. */
  lemma PurchasePaysThePrice(option: int, coins: int, u: Upgrades)
    ensures var (c, v) := Purchase(option, coins, u);
      && coins - c == Price(u, v)
      && (c < 0 ==> coins < 0 && c == coins)
      && (u.doubleShots ==> v.doubleShots) && (u.tripleShots ==> v.tripleShots)
      && u.damageLevel <= v.damageLevel <= u.damageLevel + 1
      && (u.damageLevel >= 0 ==> (v != u <==> c < coins))
  {
  }

  /** Buying the damage upgrade either raises the level by exactly one
      at the current price, or, when coins fall short, changes nothing. */
  lemma DamagePurchaseRule(coins: int, u: Upgrades)
    ensures var (c, v) := Purchase(OPTION_DAMAGE, coins, u);
      if coins >= DamageUpgradeCost(u.damageLevel)
      then c == coins - DamageUpgradeCost(u.damageLevel) && v == u.(damageLevel := u.damageLevel + 1)
      else c == coins && v == u
  {
  }

  /** Once a flag is owned, buying it again is a no-op, whatever the coins. */
  lemma RepeatUnlockIsNoOp(coins: int, u: Upgrades)
    ensures var (c, v) := Purchase(OPTION_DOUBLE, coins, u);
      Purchase(OPTION_DOUBLE, c, v) == (c, v)
    ensures var (c, v) := Purchase(OPTION_TRIPLE, coins, u);
      Purchase(OPTION_TRIPLE, c, v) == (c, v)
  {
  }

  /** The keys update_upgrade_menu reacts to. */
  datatype Key = Up | Down | Return | Space | Escape | OtherKey
  datatype Event = KeyDown(key: Key) | OtherEvent

  /** UP and DOWN move the highlight one step and stop at either end. */
  function MoveSelection(selected: int, k: Key, optionCount: int): int
  {
    if k == Up && selected > 0 then selected - 1
    else if k == Down && selected < optionCount - 1 then selected + 1
    else selected
  }

  lemma MoveSelectionStaysInRange(selected: int, k: Key, optionCount: int)
    requires 0 <= selected < optionCount
    ensures var r := MoveSelection(selected, k, optionCount);
      && 0 <= r < optionCount
      && (k == Up ==> r == if selected == 0 then 0 else selected - 1)
      && (k == Down ==> r == if selected == optionCount - 1 then selected else selected + 1)
  {
  }

  /** MainMenu is not part of this model beyond its active flag, which the
      BACK option sets. */
  class MainMenu {
    var isActive: bool

    constructor (active: bool)
      ensures isActive == active
    {
      isActive := active;
    }
  }

  class UpgradeMenu {
    var isActive: bool
    var selected: int
    var optionCount: int

    ghost predicate Valid()
      reads this
    {
      optionCount == OPTION_COUNT && 0 <= selected < optionCount
    }

    /** initialize_upgrade_menu */
    constructor ()
      ensures Valid()
      ensures !isActive && selected == OPTION_DAMAGE && optionCount == OPTION_COUNT
    {
      isActive := false;
      selected := OPTION_DAMAGE;
      optionCount := OPTION_COUNT;
    }

    /** update_upgrade_menu for one event. The coins, the upgrades and the
        show_upgrades flag are passed in and returned; the saves to disk
        are left out. */
    method HandleEvent(ev: Event, showUpgrades: bool, coins: int, ups: Upgrades, mainMenu: MainMenu)
      returns (show: bool, newCoins: int, newUps: Upgrades)
      requires Valid()
      modifies this, mainMenu
      ensures Valid() && optionCount == old(optionCount)
      ensures ev.OtherEvent? || ev.key == OtherKey ==>
        show == showUpgrades && newCoins == coins && newUps == ups
        && selected == old(selected) && isActive == old(isActive) && mainMenu.isActive == old(mainMenu.isActive)
      ensures ev == KeyDown(Up) || ev == KeyDown(Down) ==>
        selected == MoveSelection(old(selected), ev.key, optionCount)
        && show == showUpgrades && newCoins == coins && newUps == ups
        && isActive == old(isActive) && mainMenu.isActive == old(mainMenu.isActive)
      ensures ev == KeyDown(Return) || ev == KeyDown(Space) ==>
        (newCoins, newUps) == Purchase(old(selected), coins, ups) && selected == old(selected)
        && (old(selected) == OPTION_BACK ==> !show && !isActive && mainMenu.isActive)
        && (old(selected) != OPTION_BACK ==>
              show == showUpgrades && isActive == old(isActive) && mainMenu.isActive == old(mainMenu.isActive))
      ensures ev == KeyDown(Escape) ==>
        !show && newCoins == coins && newUps == ups
        && selected == old(selected) && isActive == old(isActive) && mainMenu.isActive == old(mainMenu.isActive)
    {
      show, newCoins, newUps := showUpgrades, coins, ups;
      if !ev.KeyDown? {
        return;
      }
      match ev.key
      case Up =>
        if selected > 0 {
          selected := selected - 1;
        }
      case Down =>
        if selected < optionCount - 1 {
          selected := selected + 1;
        }
      case Escape =>
        show := false;
      case OtherKey =>
      case _ =>
        if selected == OPTION_DAMAGE {
          var cost := 100 + 50 * ups.damageLevel;
          if cost > 500 {
            cost := 500;
          }
          if coins >= cost {
            newCoins := coins - cost;
            newUps := ups.(damageLevel := ups.damageLevel + 1);
          }
        } else if selected == OPTION_DOUBLE {
          if coins >= 1000 && !ups.doubleShots {
            newCoins := coins - 1000;
            newUps := ups.(doubleShots := true);
          }
        } else if selected == OPTION_TRIPLE {
          if coins >= 2000 && !ups.tripleShots {
            newCoins := coins - 2000;
            newUps := ups.(tripleShots := true);
          }
        } else if selected == OPTION_BACK {
          show := false;
          isActive := false;
          mainMenu.isActive := true;
        }
    }
  }
}

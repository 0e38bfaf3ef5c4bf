# VoidVanguard entity simulation in Dafny

VoidVanguard is a small SDL arcade shooter written in C. The player's ship sits in a window and clicks to fire at chasing enemies. This project models the game's entity-simulation layer and proves properties of it.

The layer has four parts:

- **The enemy store** (`enemy.c`): a fixed-capacity array with a `current_enemy_count` prefix. It supports:
  - appending an enemy whose stats follow from its type and the difficulty;
  - the explosion timer (alive, then exploding, then dead);
  - contact damage against the player;
  - axis-separated chase movement that refuses moves into another active enemy;
  - the push-apart fallback;
  - stable compaction of dead entries.
- **The two projectile pools** (`projectile.c`):
  - player shots: 30 slots;
  - enemy shots: 50 slots;
  - the 8-shot death burst of a purple enemy.
- **The per-frame rules of the game loop** (`main.c`):
  - difficulty from play time;
  - the spawn gate;
  - the bounded 10-try spawn placement with its fallback, clamp and type draw;
  - the fire handler with the double- and triple-shot extras;
  - the once-per-boss minion sweep;
  - the purple-burst sweep;
  - the death check that turns score into coins.
- **The upgrade shop** (`upgradeMenu.c`): the capped damage-upgrade price, the three purchases and the menu's key handling.

## How the model is built

The C code mutates arrays in place, so the model does too.

- Each in-place array becomes a Dafny `array` inside a class:
  - `EnemyStore.EnemyManager` is the store;
  - `GameSession.Session` holds the game loop's locals and both projectile pools;
  - `UpgradeShop.UpgradeMenu` is the upgrade menu.
- Every method with a loop is proved against a function on sequences. Each function states what one pass of the C loop computes: `ExplodeAll`, `ContactAll`, `ChaseFrom`, `ResolveFrom`, `PlayerPass`, `EnemyPass`, `BossSweep`, `PurpleSweep` and `Placement`.
- Lemmas then prove what the source promises about those functions.
- The session's whole state between frames is one value, `DriverRules.World`. Each phase of a frame is a function on it (`SpawnPhase`, `EnemyPhase`, `PlayerShotPhase`, `EnemyShotPhase`, `ContactPhase`, `PurplePhase`, `DeathPhase`), and a frame is their composition (`FrameRule`, `PlayPass`). Every `Session` method that runs a phase ensures that `State()` afterwards is that phase applied to `State()` before.

The modules are:

| module | models |
|---|---|
| `Geometry` | `check_collision`, plus the maths library as caller-supplied functions (`FloatMath`) |
| `Compaction` | the write-index compaction shared by the store and both pools (`Kept`, `CompactInPlace`) |
| `EnemyRules`, `EnemyStore` | `enemy.c`, first on values, then in place |
| `ProjectileRules`, `Projectiles` | `projectile.c`, first on values, then in place |
| `DriverRules`, `GameSession` | the `main.c` frame rules, first on values, then as the `Session` class |
| `UpgradeShop` | `upgradeMenu.c` |

### Modelling choices

- **Enemy flags.** `is_alive` and `is_exploding` become one value, `Life = Active | Exploding(timer) | Dead`, so "exploding implies alive" holds by construction. The two `has_spawned_*` flags are one-shot booleans.
- **`rand()`** is a caller-supplied stream `rand: nat -> nat` together with a count of values drawn. Every draw reads the next value, in the order the C code calls `rand()`.
- **Shot records.** `Projectile` and `EnemyProjectile` have the same layout, so both are one datatype, `Shot`.
- **Numbers.** Positions, velocities and the player's health are `real`, as they are `float` in the C. Enemy health and shot damage stay `int`, as in the C. `sqrtf`, `atan2f`, `cosf` and `sinf` are the caller's `FloatMath` functions. A lemma that needs a fact about them states it in its `requires`.

### Behaviour worth noting

- **Push-apart** moves *each* of the two enemies 3 units along the line between their corners (`enemy.c:215-228`).
- **Fire.** With both upgrade flags set, the double-shot extra *and* the two triple-shot extras are fired, as far as the 30-slot cap allows (`main.c:300-326`).
- **Frame order** is the code's:
  1. spawn;
  2. `update_all_enemies` (chase, push apart, explosion timers);
  3. boss sweep;
  4. cleanup;
  5. player shots;
  6. enemy shots;
  7. contact damage;
  8. purple sweep;
  9. death check.

  The cleanup therefore runs before the projectile passes (`main.c:597-656`).
- **Two player positions.** The spawn block (`main.c:472-562`) runs before the player moves (`main.c:564-594`), so the 150-pixel distance test of the spawn placement measures from the position the frame started with. The chase, the shots and the contacts use the position after the move.

## Model

| member | source | states |
|---|---|---|
| Geometry.CollidesIffSharedInterior | enemy.c:54-57 | two boxes with area collide exactly when some point lies strictly inside both |
| Geometry.CollidesSymmetric | enemy.c:54-57 | the overlap test does not depend on the order of its two boxes |
| Geometry.TouchingBoxesDoNotCollide | enemy.c:54-57 | boxes that only share an edge, on either axis, do not collide (strict inequalities) |
| Geometry.OneUnitOverlapCollides | enemy.c:54-57 | (0,0,40,40) and (39,0,40,40) collide; (0,0,40,40) and (40,0,40,40) do not |
| Compaction.KeptSatisfies | enemy.c:105-117 | every entry that survives compaction satisfies the keep test and comes from the input |
| Compaction.KeptConcat | projectile.c:55-61 | compaction distributes over concatenation, so survivors keep their relative order |
| Compaction.KeptMultiset | enemy.c:105-117 | each kept value survives as often as it occurred; every other value is dropped |
| Compaction.KeptAll | enemy.c:105-117 | a sequence whose entries all survive is unchanged |
| Compaction.KeptNone | enemy.c:105-117 | a sequence none of whose entries survive compacts to nothing |
| Compaction.KeptIdempotent | enemy.c:105-117 | compacting twice is the same as compacting once |
| Compaction.CompactInPlace | enemy.c:105-117 | the write-index loop leaves exactly the stable filter of the first n slots in `a[..m]`, with `m <= n`, and writes nothing from `m` on |
| EnemyRules.NewEnemy | enemy.c:18-48 | a new enemy is at the given position, active, with both latches clear, full health, square and of positive size; with difficulty >= 0 its speed is in [50, 350] and its max health is at least 10 |
| EnemyRules.NewEnemyStats | enemy.c:29-46 | boss: 100x100, speed 50, health 200+50d; minion: 25x25, speed 350, health 10; other types: 40x40, speed min(300, 150+10d), health 30+10d |
| EnemyRules.NewEnemyScalesWithDifficulty | enemy.c:29-46 | a higher difficulty never gives a weaker or slower enemy of the same type |
| EnemyRules.ExplosionTickRules | enemy.c:89-102 | a non-exploding enemy is untouched; an exploding one becomes dead exactly when timer - dt <= 0, otherwise keeps exploding with timer - dt; the life state never moves back |
| EnemyRules.ExplosionEndsWhenTimeRunsOut | enemy.c:89-102 | over any run of non-negative frame times, an explosion of length t ends exactly when the times add up to t; until then the timer is t minus the elapsed time |
| EnemyRules.DeadStaysDead | enemy.c:89-102 | a dead enemy is unchanged by any number of explosion updates |
| EnemyRules.ContactHitRules | enemy.c:65-83 | a contact starts a full 0.3 s explosion of an active enemy that overlaps the player and changes nothing else; every other enemy is unchanged |
| EnemyRules.ContactPassClearsOverlaps | enemy.c:60-86 | after the contact pass no enemy can still touch the player, so a second pass deals no damage and changes nothing |
| EnemyRules.BlockedIgnoresSelf | enemy.c:120-138 | what blocks slot i does not depend on the contents of slot i (the ignore index) |
| EnemyRules.ChaseStepRules | enemy.c:149-192 | a chase step changes only the position of an active enemy. Toward the target point, x is committed exactly when the box at (new x, old y) is clear of every other active enemy, and y exactly when the box at (committed x, new y) is clear; otherwise that axis keeps its old value. A moved enemy overlaps no other active enemy |
| EnemyRules.ChaseFromOnlyMovesActive | enemy.c:318-326 | the chase loop keeps the count and changes only the positions of active enemies |
| EnemyRules.PushPairRules | enemy.c:204-229 | a push moves only the two members of an overlapping active pair, changes only their positions, and leaves the store alone when the pair does not overlap |
| EnemyRules.PushFromOnlyMovesActive | enemy.c:204-230 | the inner push loop changes only the positions of active enemies |
| EnemyRules.ResolveOnlyMovesActive | enemy.c:195-232 | the push-apart pass keeps the count, leaves dead and exploding entries as they are, and changes only positions |
| EnemyRules.EnemyFrameRules | enemy.c:318-333 | one `update_all_enemies` keeps the count, never moves an enemy back in its life cycle, leaves dead entries as they are, advances explosions by dt, and changes only position and life |
| EnemyStore.EnemyManager.constructor | enemy.c:7-11 | a new store has the requested capacity and no enemies |
| EnemyStore.EnemyManager.Release | enemy.c:343-348 | after release the store has capacity 0 and count 0 |
| EnemyStore.EnemyManager.Add | enemy.c:13-51 | when full, nothing changes; otherwise exactly slot `count` is written with the new enemy, count rises by 1 and every other slot is unchanged |
| EnemyStore.EnemyManager.Cleanup | enemy.c:105-117 | the live prefix becomes its alive entries (exploding ones included) in their old order, and the count becomes their number |
| EnemyStore.EnemyManager.UpdateExplosions | enemy.c:89-102 | every slot of the prefix gets the explosion step; slots past the count are untouched |
| EnemyStore.EnemyManager.ContactDamage | enemy.c:60-86 | returns 15 per active enemy overlapping the player and adds 5 per such enemy to the score; each of those enemies starts exploding and every other slot is unchanged |
| EnemyStore.EnemyManager.WouldCollide | enemy.c:120-138 | true exactly when some other alive, non-exploding enemy overlaps the box at the new position |
| EnemyStore.EnemyManager.UpdateSingle | enemy.c:149-192 | only slot i changes, and it becomes the chase step (x first, then y from the committed x) |
| EnemyStore.EnemyManager.PushApart | enemy.c:209-229 | one pair of the push loop, as the pair rule says |
| EnemyStore.EnemyManager.PushFromSlot | enemy.c:204-230 | the inner push loop for slot i over every later slot in order |
| EnemyStore.EnemyManager.ResolveCollisions | enemy.c:195-232 | the push-apart pass over every active slot in index order |
| EnemyStore.EnemyManager.UpdateAll | enemy.c:318-333 | the prefix becomes one frame of chase, push-apart and explosion updates; slots past the count are untouched |
| ProjectileRules.BurstRules | projectile.c:128-145 | the burst keeps the pool's old shots, appends min(8, room) alive shots from the enemy's centre with angle indices 0, 1, ... in order, and never passes the capacity |
| ProjectileRules.BurstShotSpeed | projectile.c:135-140 | when cos^2 + sin^2 = 1 at the angle, every burst shot moves at exactly 300 |
| ProjectileRules.FirstTarget | projectile.c:21-44 | the shot's target is the first active enemy its box overlaps, or none; no earlier enemy qualifies |
| ProjectileRules.StrikeRules | projectile.c:28-39 | a hit takes exactly 10+5*level (the given damage) off enemy j and changes no other enemy; the enemy starts exploding and the score rises by 5 exactly when its health drops to 0 or below; a burst fires only for a purple enemy with a clear latch, and sets the latch |
| ProjectileRules.ThirdHitKillsFreshGrunt | projectile.c:28-33 | a new 30-health grunt hit at damage level 0 has 20, then 10, then starts exploding on the third hit for +5 score |
| ProjectileRules.PlayerShotStepRules | projectile.c:16-51 | a live shot moves by velocity*dt. When its moved box overlaps an active enemy, it strikes exactly the first such enemy, with the hit rule, and dies; when it overlaps none, the store, the enemy pool and the score are unchanged. At most one enemy is damaged and it stays alive; a shot that is still alive is inside the window; a dead shot changes nothing |
| ProjectileRules.PlayerPassRules | projectile.c:15-52 | over the whole pool, velocities are kept, no shot comes back to life, every live shot is inside the window, only active enemies are touched and none dies outright, the score never drops and the enemy pool stays within capacity |
| ProjectileRules.PlayerSurvivorsInBounds | projectile.c:46-61 | after the compaction there are no more shots than before, and every one is alive and inside the window |
| ProjectileRules.EnemyPassSurvivors | projectile.c:70-98 | the enemy-shot pool after the frame is exactly the shots that neither hit the player nor left the window, moved one step, in their old order |
| Projectiles.SpawnDeathBurst | projectile.c:128-145 | the pool prefix becomes the burst on the enemy, never past the pool's length; only the enemy's burst latch changes in the store |
| Projectiles.FindTarget | projectile.c:21-27 | the inner loop stops at the first active enemy the shot box overlaps |
| Projectiles.StrikeEnemy | projectile.c:28-39 | the store, the enemy pool and the score change exactly as the hit rule says |
| Projectiles.UpdatePlayerProjectiles | projectile.c:9-62 | the pool becomes the compacted result of the pass: no more shots than before; the store, enemy pool and score are the pass's |
| Projectiles.StepEnemyShot | projectile.c:71-88 | only slot i changes, by the enemy-shot step; the result says whether the moved shot hit the player |
| Projectiles.UpdateEnemyProjectiles | projectile.c:66-99 | health falls by exactly 15 per live shot whose moved box overlaps the player; the pool becomes the compacted pass, with no more shots than before |
| DriverRules.DifficultyRules | main.c:205-209 | difficulty is the number of whole 30-second periods played; it is >= 0 and never falls while play time grows |
| DriverRules.SpawnIntervalRules | main.c:476-479 | the spawn interval is 3 - 0.2d, floored at 0.3 (from level 14 on); it never grows with difficulty |
| DriverRules.FailedAttemptsRules | main.c:500-533 | every attempt before the first far one fails, and that one is far |
| DriverRules.SearchRules | main.c:500-539 | the search takes the candidate of the first far attempt, or falls back after all attempts, at the matching stream position |
| DriverRules.PlacementDraws | main.c:500-539 | placement uses between 1 and 11 pairs of draws |
| DriverRules.PlacementRules | main.c:497-539 | at most 10 attempts; the first far candidate (more than 150 from the player) is taken; if none is, the fallback lies in [50,749] x [50,549] |
| DriverRules.SpawnedRules | main.c:541-553 | a spawned enemy is an active grunt, purple or boss (a boss only after 300 s) at full health, clamped to window - 50 and otherwise where it was drawn, after at most 24 draws |
| DriverRules.AimVelocityRules | main.c:286-297 | a zero aim vector fires straight right at 500 (when sqrt(0) = 0); a unit-normalised aim fires at speed exactly 500 |
| DriverRules.VolleyShots | main.c:284-326 | one click wants 1 + (double ? 1 : 0) + (triple ? 2 : 0) shots |
| DriverRules.VolleyRules | main.c:284-327 | a click adds min(room, wanted) alive shots from the player's centre after the old ones, never passes 30, adds nothing to a full pool, and fires the primary shot first along the aim |
| DriverRules.AddMinions | main.c:605-610 | n add attempts grow the store by min(n, room), keep the old entries, and append only active minions with clear latches |
| DriverRules.Latched | main.c:603-611 | one boss step keeps the old entries except that the boss's latch is set, and appends exactly min(5, room) active minions |
| DriverRules.BossSweep | main.c:601-613 | the sweep only grows the store, never past capacity |
| DriverRules.BossSweepLength | main.c:601-613 | from slot i on, the store grows to exactly min(length + 5 * pending bosses, capacity), counting the bosses pending from slot i |
| DriverRules.BossSweepEntries | main.c:601-613 | every pending boss (type 3, dead, latch clear) gets its latch set, every other old entry is unchanged, and everything appended is an active minion |
| DriverRules.BossSweepDraws | main.c:601-613 | the sweep takes exactly 10 draws (5 add attempts) per pending boss |
| DriverRules.BossSweepIdle | main.c:601-613 | a store with no pending boss is unchanged by the sweep, which draws nothing |
| DriverRules.SecondBossSweepIsIdle | main.c:601-616 | minions spawn once per boss: a second sweep right after the first changes and draws nothing |
| DriverRules.PurpleSweepRules | main.c:634-643 | each exploding purple enemy with a clear latch gets its latch set and nothing else changes; no such enemy is left; the pool keeps its shots, only grows, stays within capacity and is unchanged when nothing is pending |
| DriverRules.SpawnPhase | main.c:472-562 | the spawn branch on the whole state: it appends at most one enemy after the old ones, keeps the store within capacity, leaves everything but the store, stream and timer alone, and either restarts the timer or changes nothing |
| DriverRules.EnemyPhaseRules | main.c:472-616 | after spawn, enemy updates, boss sweep and cleanup, the store is within capacity and holds only alive enemies; the timer is restarted or kept; the stream only moves forward; nothing but the store, stream and timer changes |
| DriverRules.ProjectilePhaseRules | main.c:618-643 | after both pool updates, contact damage and the purple sweep, the store keeps its size, every enemy is alive with no burst pending, the player pool has only alive, in-window shots and never grows, the enemy pool stays within 50, the score never falls and health never rises; nothing else changes |
| DriverRules.PlayPassRules | main.c:466-657 | a pass keeps the between-frames invariant (capacities, non-negative score and clocks, game over exactly when dead, health positive while alive and 0 once dead), the play time and a non-falling score. On the game-over screen nothing changes. During play every enemy left is alive with no purple burst pending; a player who died has 0 health and has been paid a tenth of the score in coins; otherwise coins are unchanged and 0 < health <= before |
| DriverRules.DeathRuleRules | main.c:647-652 | at health <= 0 the player is dead at exactly 0 health and earns floor(score/10) coins; otherwise nothing changes; coins never fall |
| GameSession.CountEngaged | main.c:481-488 | counts exactly the alive, non-exploding enemies |
| GameSession.AddMinion | main.c:606-609 | one minion add at the boss's position plus offsets in [-50, 49] from two draws |
| GameSession.SpawnMinions | main.c:605-610 | the five adds of one boss, ten draws |
| GameSession.SweepBosses | main.c:601-613 | the store and the stream position become the boss sweep's, including over minions the loop itself appended |
| GameSession.LatchBoss | main.c:603-612 | the five minion adds for one pending boss, then its latch |
| GameSession.Session.constructor | main.c:116-182 | four grunts at the four starting points, empty pools of 30 and 50, 200 health, no score, clocks at zero and the loaded coins and upgrades |
| GameSession.Session.DrawCandidate | main.c:502-520 | one attempt: a side from one draw, the position along it from the next |
| GameSession.Session.FindSpawnPosition | main.c:496-539 | the placement loop and its fallback, with the stream advanced by exactly the draws made |
| GameSession.Session.SpawnDirector | main.c:472-562 | a spawn happens exactly when the timer reached max(0.3, 3 - 0.2d), fewer than 15 + 5d enemies are active and the store has room; it then adds the spawned enemy and resets the timer; otherwise nothing changes. The whole new state is SpawnPhase of the old |
| GameSession.Session.DrawSpawn | main.c:496-551 | position, type and clamp, drawn in the code's order |
| GameSession.Session.DrawKind | main.c:541-546 | purple on a one-in-three draw; after 300 s a second draw makes a boss one time in twenty |
| GameSession.Session.SpawnOne | main.c:495-555 | appends exactly the spawned enemy |
| GameSession.Session.PushSpread | main.c:312-326 | the triple-shot loop adds the two extras (-0.3, then +0.3) while there is room |
| GameSession.Session.PushVolley | main.c:284-326 | the primary shot, then the extras, in order and cut off at the cap |
| GameSession.Session.Fire | main.c:281-327 | the player pool becomes the volley on the old pool, cut off at 30 |
| GameSession.Session.BossMinionSweep | main.c:600-613 | the boss sweep on the session's store and stream |
| GameSession.Session.PurpleBurstSweep | main.c:634-643 | the store and the enemy pool become the purple sweep's |
| GameSession.Session.CheckPlayerDeath | main.c:646-657 | the new state is DeathPhase of the old: health, alive flag and coins follow the death rule, the game-over screen comes up when health <= 0, and nothing else changes |
| GameSession.Session.Tick | main.c:466-657 | play time grows by dt (main.c:206); the new state is PlayPass of the old state with the advanced play time, with the pre-move box for the spawn and the post-move box for everything else; the structure and the between-frames invariant are kept and the store array stays the same |
| GameSession.Session.PlayFrame | main.c:471-657 | the new state is exactly one frame of play at the difficulty of the play time: timer advance, then EnemyPhase, ProjectilePhase and DeathPhase |
| GameSession.Session.AdvanceSpawnTimer | main.c:473 | the spawn timer grows by dt and nothing else changes |
| GameSession.Session.EnemySteps | main.c:472-616 | the new state is EnemyPhase of the old: spawn against the pre-move box, enemy updates toward the post-move box, boss sweep and cleanup, with the stream advanced accordingly |
| GameSession.Session.ProjectileSteps | main.c:618-643 | the new state is ProjectilePhase of the old: both pools, contact damage and the purple sweep |
| GameSession.Session.HitSteps | main.c:618-632 | the new state is the player-shot pass, then the enemy-shot pass, then the contact pass, applied to the old |
| GameSession.Session.UpdatePlayerShots | main.c:619-622 | the new state is PlayerShotPhase of the old: store, enemy pool and score as the pass leaves them, the player pool compacted |
| GameSession.Session.UpdateEnemyShotsAndContacts | main.c:623-632 | the new state is the enemy-shot pass followed by the contact pass: health falls by 15 per hitting shot and 15 per contact, the score rises by 5 per contact |
| GameSession.Session.UpdateEnemyShots | main.c:623-626 | the new state is EnemyShotPhase of the old: the compacted moved pool and 15 health per hitting shot |
| GameSession.Session.Contact | main.c:628-632 | the store becomes the contact pass; the score rises by 5 per contact and health falls by 15 per contact; aliveness of every slot is unchanged |
| UpgradeShop.DamageUpgradeCostRules | upgradeMenu.c:14-17 | the price is 100 + 50 per level up to level 8 and 500 from then on; it lies in [100, 500] and never falls as the level rises |
| UpgradeShop.PurchasePaysThePrice | upgradeMenu.c:64-105 | coins drop by exactly the price of what was bought. At most one upgrade changes and no flag is lost. Non-negative coins never go negative. At level >= 0, the upgrades change exactly when coins are spent |
| UpgradeShop.DamagePurchaseRule | upgradeMenu.c:67-77 | with enough coins the level rises by 1 at the current price; otherwise nothing changes |
| UpgradeShop.RepeatUnlockIsNoOp | upgradeMenu.c:79-95 | buying double or triple shots a second time changes nothing |
| UpgradeShop.MoveSelectionStaysInRange | upgradeMenu.c:54-63 | UP and DOWN keep the selection in [0, count-1] and stop at either end |
| UpgradeShop.UpgradeMenu.constructor | upgradeMenu.c:43-47 | the menu starts inactive with DAMAGE selected and four options |
| UpgradeShop.UpgradeMenu.HandleEvent | upgradeMenu.c:49-111 | UP/DOWN move the selection; ENTER/SPACE perform the selected purchase (with the inline price equal to `get_damage_upgrade_cost`), and BACK closes the menu and activates the main menu; ESC clears `show_upgrades`; other events change nothing |

## Left out

- SDL windowing, event polling, every `draw_*` function, the star field and the background colour: rendering and library glue.
- SDL_mixer sound calls: audio side effects with no effect on the state.
- `save_coins`, `load_coins`, `save_upgrades` and `load_upgrades`: file I/O, so loaded values are constructor inputs and saves are dropped.
- `printf` logging, `SDL_Delay` frame pacing and the `enemies_spawned_count` counter: they only feed log messages.
- `mainMenu.c`, `soundMenu.c` and `dieMenu.c`: menu navigation. Only the main menu's active flag, which BACK sets, is modelled.
- Restart and new game (`main.c:358-420`): reinitialisation; `reset_game_state` is not part of this model.
- Player movement (`main.c:564-594`): keyboard input and clamping. `Tick` takes the player box before this frame's movement and the box after it as inputs.
- The SPACE debug key that adds a grunt at a random position (`main.c:264-274`): a debugging input, not a frame rule.
- Play time also advances while a menu other than the game-over screen is up. `Tick` models only frames of play and of the game-over screen.
- `would_collide_with_player` (`enemy.c:141-146`): never called. `update_single_enemy`'s unused player parameters and `update_enemy_projectiles`' unused `max` are dropped as well.
- `damage_to_player` and `collision_count`: the first is written once and never read, the second is never used. The explosion timer of a dead enemy is not kept either, because nothing reads it after death.
- Float rounding: coordinates, velocities and the player's health are reals (enemy health and shot damage are `int`, as in the C). `sqrtf`, `atan2f`, `cosf` and `sinf` are caller-supplied functions, so no claim about actual float results is made.
- C `int` overflow of score, coins or damage level: integers are unbounded.
- The distribution of `rand()`: it is a supplied stream, and only which draws are used, and in what order, is modelled.
- `malloc` and `free` of the store: it is a Dafny array of the requested length.
- AimVelocityRules: states the 500 speed only under the hypothesis that `sqrt` normalises the aim vector exactly, because the maths functions are uninterpreted.
- BurstShotSpeed: states the 300 speed only under the hypothesis cos^2 + sin^2 = 1 at the burst angle, for the same reason.
- BossSweep: its own contract states only the bound on the store's length; the exact number of minions appended is the lemma BossSweepLength.

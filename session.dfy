/** The game-loop state of main.c and the steps one frame of play runs,
    each proved against the value-level rules of DriverRules. */
module GameSession {
  import opened Geometry
  import opened Compaction
  import opened EnemyRules
  import opened EnemyStore
  import opened ProjectileRules
  import opened Projectiles
  import opened UpgradeShop
  import opened DriverRules

  /** The number of alive, non-exploding enemies in the store. */
  method CountEngaged(mgr: EnemyManager) returns (n: nat)
    requires mgr.Valid()
    ensures n == |Kept(mgr.Live(), Engaged)|
  {
    n := 0;
    for i := 0 to mgr.count
      invariant n == |Kept(mgr.Live()[..i], Engaged)|
    {
      assert mgr.Live()[..i + 1] == mgr.Live()[..i] + [mgr.slots[i]];
      KeptSnoc(mgr.Live()[..i], mgr.slots[i], Engaged);
      if Alive(mgr.slots[i]) && !mgr.slots[i].life.Exploding? {
        n := n + 1;
      }
    }
    assert mgr.Live()[..mgr.count] == mgr.Live();
  }

  /** One minion add around boss e: an offset in [-50, 49] on each axis
      from the two draws at positions pos and pos + 1 of the stream. */
  method AddMinion(mgr: EnemyManager, e: Enemy, d: int, rand: nat -> nat, pos: nat)
    requires mgr.Valid()
    modifies mgr`count, mgr.slots
    ensures mgr.Valid() && mgr.slots.Length == old(mgr.slots.Length)
    ensures var spot := MinionSpot(e, rand, pos);
      mgr.Live() == StoreAdd(old(mgr.Live()), mgr.slots.Length, NewEnemy(spot.0, spot.1, MINION, d))
  {
    var x := e.x + (rand(pos) % 100) as real - 50.0;
    var y := e.y + (rand(pos + 1) % 100) as real - 50.0;
    mgr.Add(x, y, MINION, d);
  }

  /** The five minion adds around boss e, two draws from rand each,
      starting at position at of the stream; next is the position after. */
  method SpawnMinions(mgr: EnemyManager, e: Enemy, d: int, rand: nat -> nat, at: nat) returns (next: nat)
    requires mgr.Valid()
    modifies mgr`count, mgr.slots
    ensures mgr.Valid()
    ensures mgr.Live() == AddMinions(old(mgr.Live()), e, MINIONS_PER_BOSS, mgr.slots.Length, rand, at, d)
    ensures next == at + 2 * MINIONS_PER_BOSS
  {
    ghost var s0 := mgr.Live();
    next := at;
    for j := 0 to MINIONS_PER_BOSS
      invariant mgr.Valid() && mgr.slots.Length == old(mgr.slots.Length)
      invariant next == at + 2 * j
      invariant mgr.Live() == AddMinions(s0, e, j, mgr.slots.Length, rand, at, d)
    {
      AddMinionsNext(s0, e, j, mgr.slots.Length, rand, at, d);
      AddMinion(mgr, e, d, rand, next);
      next := next + 2;
    }
  }

  /** main.c's boss sweep over the store: every boss whose explosion has
      finished and whose minions are still due gets five minion add
      attempts and its latch set. The loop re-reads the count, so it
      visits the minions too. */
  method SweepBosses(mgr: EnemyManager, d: int, rand: nat -> nat, at: nat) returns (next: nat)
    requires mgr.Valid()
    modifies mgr`count, mgr.slots
    ensures mgr.Valid()
    ensures (mgr.Live(), next) == BossSweep(old(mgr.Live()), 0, mgr.slots.Length, rand, at, d)
  {
    var i := 0;
    next := at;
    while i < mgr.count
      invariant mgr.Valid()
      invariant i <= mgr.count
      invariant BossSweep(mgr.Live(), i, mgr.slots.Length, rand, next, d)
        == BossSweep(old(mgr.Live()), 0, mgr.slots.Length, rand, at, d)
      decreases mgr.slots.Length - i
    {
      var e := mgr.slots[i];
      if e.kind == BOSS && !Alive(e) && !e.minionsDone {
        next := LatchBoss(mgr, i, d, rand, next);
      }
      i := i + 1;
    }
  }

  /** The sweep's step for the pending boss in slot i: its minion adds,
      then its latch. */
  method LatchBoss(mgr: EnemyManager, i: nat, d: int, rand: nat -> nat, at: nat) returns (next: nat)
    requires mgr.Valid() && i < mgr.count && PendingBoss(mgr.slots[i])
    modifies mgr`count, mgr.slots
    ensures mgr.Valid() && mgr.slots.Length == old(mgr.slots.Length)
    ensures mgr.Live() == Latched(old(mgr.Live()), i, mgr.slots.Length, rand, at, d)
    ensures next == at + 2 * MINIONS_PER_BOSS
  {
    ghost var cur := mgr.Live();
    var e := mgr.slots[i];
    ghost var grown := AddMinions(cur, e, MINIONS_PER_BOSS, mgr.slots.Length, rand, at, d);
    next := SpawnMinions(mgr, e, d, rand, at);
    assert mgr.slots[i] == e by {
      assert mgr.Live()[i] == grown[i];
    }
    mgr.slots[i] := e.(minionsDone := true);
    assert mgr.Live() == grown[i := e.(minionsDone := true)];
  }

  /** What the pools are filled with before any shot is fired. */
  const DEAD_SHOT: Shot := Shot(0.0, 0.0, 0.0, 0.0, false)

  class Session {
    /** The enemy store, created with room for 1000 enemies. */
    const enemies: EnemyManager
    /** The player-shot pool (30 slots) and the enemy-shot pool (50 slots). */
    const shots: array<Shot>
    const enemyShots: array<Shot>
    var shotCount: nat
    var enemyShotCount: nat
    var score: int
    var coins: int
    var health: real
    var playerAlive: bool
    /** game_over_menu.is_active */
    var gameOver: bool
    var spawnTimer: real
    var playTime: real
    var upgrades: Upgrades
    /** The values rand() returns, in order, and how many have been drawn. */
    const rand: nat -> nat
    var drawn: nat

    /** The store and the two pools have their capacities and the counts
        stay within them. */
    ghost predicate Structure()
      reads this, enemies
    {
      && enemies.Valid() && enemies.slots.Length == ENEMY_CAPACITY
      && shots.Length == PLAYER_SHOT_CAPACITY && enemyShots.Length == ENEMY_SHOT_CAPACITY
      && shots != enemyShots
      && shotCount <= shots.Length && enemyShotCount <= enemyShots.Length
    }

    /** Between frames, besides the structure, the session's state is
        Sound. */
    ghost predicate Valid()
      reads this, enemies, enemies.slots, shots, enemyShots
    {
      Structure() && Sound(State())
    }

    /** The session's state as one value. */
    ghost function State(): World
      reads this, enemies, enemies.slots, shots, enemyShots
      requires Structure()
    {
      World(enemies.Live(), shots[..shotCount], enemyShots[..enemyShotCount], score, health, playerAlive,
            coins, gameOver, drawn, spawnTimer, playTime)
    }

    /** The set-up before the game loop: a store with four grunts, empty
        pools, full health, no score, and the coins and upgrades loaded
        from disk (passed in). */
    constructor (rand: nat -> nat, coins: int, upgrades: Upgrades)
      ensures Valid()
      ensures fresh(enemies) && fresh(enemies.slots) && fresh(shots) && fresh(enemyShots)
      ensures enemies.Live() == [NewEnemy(400.0, 300.0, GRUNT, 0), NewEnemy(100.0, 100.0, GRUNT, 0),
                                 NewEnemy(600.0, 400.0, GRUNT, 0), NewEnemy(200.0, 500.0, GRUNT, 0)]
      ensures shotCount == 0 && enemyShotCount == 0 && score == 0
      ensures health == START_HEALTH && playerAlive && !gameOver
      ensures spawnTimer == 0.0 && playTime == 0.0 && drawn == 0
      ensures this.rand == rand && this.coins == coins && this.upgrades == upgrades
    {
      var store := new EnemyManager(ENEMY_CAPACITY);
      store.Add(400.0, 300.0, GRUNT, 0);
      assert store.Live() == [NewEnemy(400.0, 300.0, GRUNT, 0)];
      store.Add(100.0, 100.0, GRUNT, 0);
      assert store.Live() == [NewEnemy(400.0, 300.0, GRUNT, 0), NewEnemy(100.0, 100.0, GRUNT, 0)];
      store.Add(600.0, 400.0, GRUNT, 0);
      store.Add(200.0, 500.0, GRUNT, 0);
      assert |store.Live()| == 4;
      enemies := store;
      shots := new Shot[PLAYER_SHOT_CAPACITY](_ => DEAD_SHOT);
      enemyShots := new Shot[ENEMY_SHOT_CAPACITY](_ => DEAD_SHOT);
      shotCount, enemyShotCount := 0, 0;
      score, health, playerAlive, gameOver := 0, START_HEALTH, true, false;
      spawnTimer, playTime := 0.0, 0.0;
      this.rand, drawn := rand, 0;
      this.coins, this.upgrades := coins, upgrades;
    }

    /** One call of rand(). */
    method Draw() returns (v: nat)
      modifies this`drawn
      ensures v == rand(old(drawn)) && drawn == old(drawn) + 1
    {
      v := rand(drawn);
      drawn := drawn + 1;
    }

    /** One placement attempt: a side, then a position along it. */
    method DrawCandidate() returns (x: real, y: real)
      modifies this`drawn
      ensures (x, y) == Candidate(rand, old(drawn)) && drawn == old(drawn) + 2
    {
      var r := Draw();
      var v := Draw();
      var pt := EdgePoint(r, v);
      x, y := pt.0, pt.1;
    }

    /** The placement loop of the spawn branch, at most ten attempts that
        stop at the first candidate far enough from the player, and its
        fallback. */
    method FindSpawnPosition(px: real, py: real, m: FloatMath) returns (x: real, y: real)
      modifies this`drawn
      ensures Spot(x, y, drawn) == Placement(rand, old(drawn), px, py, m)
    {
      ghost var target := Placement(rand, drawn, px, py, m);
      var attempts: nat := 0;
      var found := false;
      x, y := 0.0, 0.0;
      while attempts < PLACEMENT_TRIES && !found
        invariant attempts <= PLACEMENT_TRIES
        invariant !found ==> Search(rand, drawn, PLACEMENT_TRIES - attempts, FarStream(rand, px, py, m)) == target
        invariant found ==> Spot(x, y, drawn) == target
        decreases PLACEMENT_TRIES - attempts
      {
        x, y := DrawCandidate();
        if FarFrom((x, y), px, py, m) {
          found := true;
        }
        attempts := attempts + 1;
      }
      if !found {
        var a := Draw();
        var b := Draw();
        x, y := (a % 700) as real + 50.0, (b % 500) as real + 50.0;
      }
    }

    /** The spawn branch: when the timer has run out, the population is
        under the cap and the store has room, one enemy is spawned and the
        timer restarts; otherwise nothing changes. */
    method SpawnDirector(player: Rect, width: int, height: int, d: int, m: FloatMath)
      requires Structure()
      modifies this`drawn, this`spawnTimer, enemies`count, enemies.slots
      ensures Structure()
      ensures SpawnGate(old(spawnTimer), d, |Kept(old(enemies.Live()), Engaged)|, old(enemies.count), ENEMY_CAPACITY) ==>
        && enemies.Live() == old(enemies.Live()) + [Spawned(rand, old(drawn), player.x, player.y, width, height, playTime, d, m).0]
        && drawn == Spawned(rand, old(drawn), player.x, player.y, width, height, playTime, d, m).1
        && spawnTimer == 0.0
      ensures !SpawnGate(old(spawnTimer), d, |Kept(old(enemies.Live()), Engaged)|, old(enemies.count), ENEMY_CAPACITY) ==>
        enemies.Live() == old(enemies.Live()) && drawn == old(drawn) && spawnTimer == old(spawnTimer)
      ensures State() == SpawnPhase(old(State()), rand, player.x, player.y, width, height, d, m)
    {
      var maxEnemies := 15 + d * 5;
      var interval := 3.0 - d as real * 0.2;
      if interval < 0.3 {
        interval := 0.3;
      }
      var engaged := CountEngaged(enemies);
      if spawnTimer >= interval && engaged < maxEnemies && enemies.count < enemies.slots.Length {
        SpawnOne(player, width, height, d, m);
        spawnTimer := 0.0;
      }
    }

    /** The draws of the spawn branch: a position from the placement
        search, a type from one or two draws, and the clamp to the window. */
    method DrawSpawn(player: Rect, width: int, height: int, ghost d: int, m: FloatMath)
      returns (x: real, y: real, kind: int)
      modifies this`drawn
      ensures Spawned(rand, old(drawn), player.x, player.y, width, height, playTime, d, m)
        == (NewEnemy(x, y, kind, d), drawn)
    {
      ghost var p := Placement(rand, drawn, player.x, player.y, m);
      x, y := FindSpawnPosition(player.x, player.y, m);
      ghost var choice := ChooseKind(rand, drawn, playTime);
      kind := DrawKind();
      assert (kind, drawn) == choice;
      ghost var clamped := ClampSpawn(x, y, width, height);
      if x > (width - 50) as real {
        x := (width - 50) as real;
      }
      if y > (height - 50) as real {
        y := (height - 50) as real;
      }
      assert (x, y) == clamped;
    }

    /** The type draw of the spawn branch: purple on a one-in-three draw,
        and after 300 seconds a second draw can make it a boss. */
    method DrawKind() returns (kind: int)
      modifies this`drawn
      ensures (kind, drawn) == ChooseKind(rand, old(drawn), playTime)
    {
      var r := Draw();
      kind := if r % 3 == 0 then PURPLE else GRUNT;
      if playTime > BOSS_TIME {
        var r2 := Draw();
        if r2 % 20 == 0 {
          kind := BOSS;
        }
      }
    }

    /** The body of the spawn branch: the draws, then the add. */
    method SpawnOne(player: Rect, width: int, height: int, d: int, m: FloatMath)
      requires Structure() && enemies.count < enemies.slots.Length
      modifies this`drawn, enemies`count, enemies.slots
      ensures Structure()
      ensures var (e, next) := Spawned(rand, old(drawn), player.x, player.y, width, height, playTime, d, m);
        enemies.Live() == old(enemies.Live()) + [e] && drawn == next
    {
      var x, y, kind := DrawSpawn(player, width, height, d, m);
      enemies.Add(x, y, kind, d);
    }

    /** Puts p into the next free slot of the player-shot pool. */
    method PushShot(p: Shot)
      requires shotCount < shots.Length
      modifies shots, this`shotCount
      ensures shotCount == old(shotCount) + 1
      ensures shots[..shotCount] == old(shots[..shotCount]) + [p]
    {
      shots[shotCount] := p;
      shotCount := shotCount + 1;
    }

    /** The triple-shot loop: the two extras, as many as there is room for. */
    method PushSpread(cx: real, cy: real, dx: real, dy: real, m: FloatMath)
      requires shotCount <= shots.Length
      modifies shots, this`shotCount
      ensures var room := shots.Length - old(shotCount);
        && shotCount == old(shotCount) + (if room < 2 then room else 2)
        && shots[..shotCount] == old(shots[..shotCount]) + SpreadPair(cx, cy, dx, dy, m)[..if room < 2 then room else 2]
    {
      ghost var pool := shots[..shotCount];
      ghost var pair := SpreadPair(cx, cy, dx, dy, m);
      var i := 0;
      while i < 2 && shotCount < shots.Length
        invariant 0 <= i <= 2
        invariant shotCount == |pool| + i <= shots.Length
        invariant shots[..shotCount] == pool + pair[..i]
      {
        assert pair[..i + 1] == pair[..i] + [pair[i]];
        PushShot(SpreadShot(cx, cy, dx, dy, if i == 0 then -0.3 else 0.3, m));
        i := i + 1;
      }
    }

    /** The fire handler for one left click: the volley, cut off at the
        30-slot cap. */
    method Fire(player: Rect, mouseX: real, mouseY: real, m: FloatMath)
      requires Valid()
      modifies shots, this`shotCount
      ensures Valid()
      ensures shots[..shotCount] == Volley(old(shots[..shotCount]), PLAYER_SHOT_CAPACITY, player, mouseX, mouseY, upgrades, m)
    {
      if shotCount >= PLAYER_SHOT_CAPACITY {
        return;
      }
      ghost var pool := shots[..shotCount];
      PushVolley(player, mouseX, mouseY, m);
      assert Volley(pool, PLAYER_SHOT_CAPACITY, player, mouseX, mouseY, upgrades, m)
        == pool + VolleyShots(player, mouseX, mouseY, upgrades, m)[..shotCount - |pool|];
    }

    /** The shots of one click into a pool with room: the primary shot,
        then the double-shot extra and the triple-shot pair while there is
        room. */
    method PushVolley(player: Rect, mouseX: real, mouseY: real, m: FloatMath)
      requires shotCount < shots.Length
      modifies shots, this`shotCount
      ensures var all := VolleyShots(player, mouseX, mouseY, upgrades, m);
        var room := shots.Length - old(shotCount);
        var n := if room < |all| then room else |all|;
        shotCount == old(shotCount) + n && shots[..shotCount] == old(shots[..shotCount]) + all[..n]
    {
      ghost var pool := shots[..shotCount];
      ghost var all := VolleyShots(player, mouseX, mouseY, upgrades, m);
      var cx, cy := player.x + player.w / 2.0, player.y + player.h / 2.0;
      var dx, dy := mouseX - cx, mouseY - cy;
      var v := AimVelocity(dx, dy, m);
      ghost var base: nat := if upgrades.doubleShots then 2 else 1;
      ghost var front := [Shot(cx, cy, v.0, v.1, true)]
        + (if upgrades.doubleShots then [SpreadShot(cx, cy, dx, dy, 0.1, m)] else []);
      assert all == front + (if upgrades.tripleShots then SpreadPair(cx, cy, dx, dy, m) else []);
      PushShot(Shot(cx, cy, v.0, v.1, true));
      if upgrades.doubleShots && shotCount < shots.Length {
        PushShot(SpreadShot(cx, cy, dx, dy, 0.1, m));
        assert shots[..shotCount] == pool + front;
      }
      if upgrades.tripleShots && shotCount < shots.Length {
        assert shots[..shotCount] == pool + front;
        PushSpread(cx, cy, dx, dy, m);
        ghost var k := shotCount - |pool| - base;
        assert all[..base + k] == front + SpreadPair(cx, cy, dx, dy, m)[..k];
      }
    }

    /** The boss sweep, drawing from this session's stream. */
    method BossMinionSweep(d: int)
      requires Structure()
      modifies enemies`count, enemies.slots, this`drawn
      ensures Structure()
      ensures (enemies.Live(), drawn) == BossSweep(old(enemies.Live()), 0, ENEMY_CAPACITY, rand, old(drawn), d)
    {
      drawn := SweepBosses(enemies, d, rand, drawn);
    }

    /** The purple sweep: every exploding purple enemy whose burst has not
        fired fires it into the enemy-shot pool. */
    method PurpleBurstSweep(m: FloatMath)
      requires Structure()
      modifies enemies.slots, enemyShots, this`enemyShotCount
      ensures Structure()
      ensures (enemies.Live(), enemyShots[..enemyShotCount])
        == PurpleSweep(old(enemies.Live()), old(enemyShots[..enemyShotCount]), 0, ENEMY_SHOT_CAPACITY, m)
    {
      for j := 0 to enemies.count
        invariant Structure()
        invariant PurpleSweep(enemies.Live(), enemyShots[..enemyShotCount], j, ENEMY_SHOT_CAPACITY, m)
          == PurpleSweep(old(enemies.Live()), old(enemyShots[..enemyShotCount]), 0, ENEMY_SHOT_CAPACITY, m)
      {
        var e := enemies.slots[j];
        if e.life.Exploding? && e.kind == PURPLE && !e.burstDone {
          enemyShotCount := SpawnDeathBurst(enemies, j, enemyShots, enemyShotCount, m);
        }
      }
    }

    /** The player-death branch. */
    method CheckPlayerDeath()
      requires Structure()
      modifies this`health, this`playerAlive, this`gameOver, this`coins
      ensures Structure()
      ensures State() == DeathPhase(old(State()))
    {
      if health <= 0.0 {
        health := 0.0;
        playerAlive := false;
        var earned := CDiv(score, 10);
        coins := coins + earned;
        gameOver := true;
      }
    }

    /** One pass of the game loop while no menu but possibly the game-over
        screen is up: the play time advances, then the rest is as
        PlayPass says. before is the player box as the
        frame found it, which the spawn placement keeps away from; player
        is the box after this frame's movement, which the enemies chase
        and the shots and contacts hit. */
    method Tick(before: Rect, player: Rect, width: int, height: int, dt: real, m: FloatMath)
      requires Valid() && dt >= 0.0
      modifies this, enemies, enemies.slots, shots, enemyShots
      ensures Valid()
      ensures enemies.slots == old(enemies.slots)
      ensures playTime == old(playTime) + dt
      ensures State() == PlayPass(old(State()).(playTime := playTime), rand, before, player, width, height,
                                  DamagePerHit(upgrades.damageLevel), dt, m)
    {
      playTime := playTime + dt;
      if gameOver {
        return;
      }
      PlayFrame(before, player, width, height, dt, m);
      PlayPassRules(old(State()).(playTime := playTime), rand, before, player, width, height,
                    DamagePerHit(upgrades.damageLevel), dt, m);
    }

    /** One frame of play, as FrameRule says: the spawn timer advances,
        then the enemy half, the projectile half and the death check run,
        in main.c's order. */
    method PlayFrame(before: Rect, player: Rect, width: int, height: int, dt: real, m: FloatMath)
      requires Structure()
      modifies this`drawn, this`spawnTimer, enemies`count, enemies.slots, shots, enemyShots,
               this`shotCount, this`enemyShotCount, this`score, this`health, this`playerAlive, this`gameOver, this`coins
      ensures Structure()
      ensures State() == DeathPhase(ProjectilePhase(EnemyPhase(old(State()).(timer := old(State()).timer + dt), rand, before.x, before.y, player.x, player.y,
                                          width, height, Difficulty(old(State()).playTime), dt, m),
                               player, DamagePerHit(upgrades.damageLevel), Arena(width, height, dt, m)))
    {
      var d := Difficulty(playTime);
      AdvanceSpawnTimer(dt);
      EnemySteps(before, player, width, height, d, dt, m);
      ProjectileSteps(player, width, height, dt, m);
      CheckPlayerDeath();
    }

    /** The spawn timer counts the frame's time. */
    method AdvanceSpawnTimer(dt: real)
      requires Structure()
      modifies this`spawnTimer
      ensures Structure()
      ensures State() == old(State()).(timer := old(State()).timer + dt)
    {
      spawnTimer := spawnTimer + dt;
    }

    /** The enemy half of a frame: the spawn branch, the chase, the boss
        sweep and the clean-up, as EnemyPhase says. */
    method EnemySteps(before: Rect, player: Rect, width: int, height: int, d: int, dt: real, m: FloatMath)
      requires Structure()
      modifies this`drawn, this`spawnTimer, enemies`count, enemies.slots
      ensures Structure()
      ensures State() == EnemyPhase(old(State()), rand, before.x, before.y, player.x, player.y, width, height, d, dt, m)
    {
      SpawnDirector(before, width, height, d, m);
      enemies.UpdateAll(player.x, player.y, dt, m);
      BossMinionSweep(d);
      enemies.Cleanup();
    }

    /** The projectile half of a frame: both pool updates, contact damage
        and the purple sweep, as ProjectilePhase says. */
    method ProjectileSteps(player: Rect, width: int, height: int, dt: real, m: FloatMath)
      requires Structure()
      modifies shots, enemyShots, enemies.slots, this`shotCount, this`enemyShotCount, this`score, this`health
      ensures Structure()
      ensures State() == ProjectilePhase(old(State()), player, DamagePerHit(upgrades.damageLevel),
                                         Arena(width, height, dt, m))
    {
      HitSteps(player, width, height, dt, m);
      PurpleBurstSweep(m);
    }

    /** Both pool updates and contact damage. */
    method HitSteps(player: Rect, width: int, height: int, dt: real, m: FloatMath)
      requires Structure()
      modifies shots, enemyShots, enemies.slots, this`shotCount, this`enemyShotCount, this`score, this`health
      ensures Structure()
      ensures var a := Arena(width, height, dt, m);
        State() == ContactPhase(EnemyShotPhase(PlayerShotPhase(old(State()), DamagePerHit(upgrades.damageLevel), a),
                                               player, a), player)
    {
      var a := Arena(width, height, dt, m);
      UpdatePlayerShots(a);
      UpdateEnemyShotsAndContacts(player, a);
    }

    /** update_player_projectiles on the session's pools and store. */
    method UpdatePlayerShots(a: Arena)
      requires Structure()
      modifies shots, enemyShots, enemies.slots, this`shotCount, this`enemyShotCount, this`score
      ensures Structure()
      ensures State() == PlayerShotPhase(old(State()), DamagePerHit(upgrades.damageLevel), a)
    {
      shotCount, enemyShotCount, score :=
        UpdatePlayerProjectiles(shots, shotCount, enemies, enemyShots, enemyShotCount, score, upgrades.damageLevel, a);
    }

    /** update_enemy_projectiles, then the contact pass. */
    method UpdateEnemyShotsAndContacts(player: Rect, a: Arena)
      requires Structure()
      modifies enemyShots, enemies.slots, this`enemyShotCount, this`score, this`health
      ensures Structure()
      ensures State() == ContactPhase(EnemyShotPhase(old(State()), player, a), player)
    {
      UpdateEnemyShots(player, a);
      Contact(player);
    }

    /** update_enemy_projectiles on the session's enemy pool and health. */
    method UpdateEnemyShots(player: Rect, a: Arena)
      requires Structure()
      modifies enemyShots, this`enemyShotCount, this`health
      ensures Structure()
      ensures State() == EnemyShotPhase(old(State()), player, a)
    {
      ghost var w := State();
      enemyShotCount, health := UpdateEnemyProjectiles(enemyShots, enemyShotCount, player, health, a);
      assert enemies.Live() == w.enemies && shots[..shotCount] == w.shots;
    }

    /** The contact pass: every active enemy touching the player explodes,
        scores 5 and takes 15 health; nobody dies outright. */
    method Contact(player: Rect)
      requires Structure()
      modifies enemies.slots, this`score, this`health
      ensures Structure()
      ensures State() == ContactPhase(old(State()), player)
      ensures forall k :: 0 <= k < enemies.count ==> (Alive(enemies.Live()[k]) <==> Alive(old(enemies.Live())[k]))
    {
      ghost var before := enemies.Live();
      var damage, newScore := enemies.ContactDamage(player, score);
      score := newScore;
      health := health - damage;
      forall k | 0 <= k < enemies.count
        ensures Alive(enemies.Live()[k]) <==> Alive(before[k])
      {
        assert enemies.Live()[k] == ContactHit(before[k], player);
      }
    }
  }
}

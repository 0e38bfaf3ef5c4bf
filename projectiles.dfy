/** projectile.c's two pool updates over fixed-capacity arrays, proved
    against the value-level passes of ProjectileRules. */
module Projectiles {
  import opened Geometry
  import opened Compaction
  import opened EnemyRules
  import opened EnemyStore
  import opened ProjectileRules

  /** spawn_purple_enemy_death_projectiles for the enemy in slot idx of the
      store: up to eight shots are appended to the first count slots of the
      pool, and the enemy's burst latch is set. */
  method SpawnDeathBurst(mgr: EnemyManager, idx: nat, pool: array<Shot>, count: nat, m: FloatMath)
    returns (newCount: nat)
    requires mgr.Valid() && idx < mgr.count && count <= pool.Length
    modifies mgr.slots, pool
    ensures newCount <= pool.Length
    ensures pool[..newCount] == Burst(old(mgr.slots[idx]), old(pool[..count]), pool.Length, m)
    ensures pool[newCount..] == old(pool[newCount..])
    ensures mgr.slots[..] == old(mgr.slots[..])[idx := old(mgr.slots[idx]).(burstDone := true)]
  {
    var e := mgr.slots[idx];
    newCount := count;
    for k := 0 to BURST_COUNT
      invariant count <= newCount <= pool.Length
      invariant newCount - count == if k <= pool.Length - count then k else pool.Length - count
      invariant pool[..count] == old(pool[..count])
      invariant forall q :: count <= q < newCount ==> pool[q] == BurstShot(e, q - count, m)
      invariant forall q :: newCount <= q < pool.Length ==> pool[q] == old(pool[q])
      invariant mgr.slots[..] == old(mgr.slots[..])
    {
      if newCount < pool.Length {
        pool[newCount] := BurstShot(e, k, m);
        newCount := newCount + 1;
      }
    }
    assert pool[..newCount] == old(pool[..count]) + BurstShots(e, newCount - count, m);
    mgr.slots[idx] := e.(burstDone := true);
    assert pool[newCount..] == old(pool[newCount..]);
  }

  /** The first active enemy in the store that box b overlaps, or the
      enemy count when there is none. */
  method FindTarget(mgr: EnemyManager, b: Rect) returns (j: nat)
    requires mgr.Valid()
    ensures j == FirstTarget(mgr.Live(), b, 0)
  {
    j := 0;
    while j < mgr.count
      invariant j <= mgr.count
      invariant FirstTarget(mgr.Live(), b, j) == FirstTarget(mgr.Live(), b, 0)
    {
      var e := mgr.slots[j];
      if Alive(e) && !e.life.Exploding? && Collides(b, Box(e)) {
        return;
      }
      j := j + 1;
    }
  }

  /** The hit on enemy j inside update_player_projectiles' inner loop. */
  method StrikeEnemy(mgr: EnemyManager, j: nat, dmg: int, pool: array<Shot>, poolCount: nat,
                     score: int, m: FloatMath)
    returns (newPoolCount: nat, newScore: int)
    requires mgr.Valid() && j < mgr.count && poolCount <= pool.Length
    modifies mgr.slots, pool
    ensures newPoolCount <= pool.Length
    ensures var r := Strike(Battle(old(mgr.Live()), old(pool[..poolCount]), score), j, dmg, pool.Length, m);
      mgr.Live() == r.enemies && pool[..newPoolCount] == r.pool && newScore == r.score
    ensures mgr.slots[mgr.count..] == old(mgr.slots[mgr.count..])
    ensures pool[newPoolCount..] == old(pool[newPoolCount..])
  {
    newPoolCount, newScore := poolCount, score;
    var e := mgr.slots[j];
    mgr.slots[j] := e.(health := e.health - dmg);
    if e.health - dmg <= 0 {
      mgr.slots[j] := mgr.slots[j].(life := Exploding(EXPLOSION_TIME));
      newScore := score + KILL_SCORE;
      if e.kind == PURPLE && !e.burstDone {
        newPoolCount := SpawnDeathBurst(mgr, j, pool, poolCount, m);
      }
    }
    assert mgr.slots[mgr.count..] == old(mgr.slots[mgr.count..]);
  }

  /** update_player_projectiles: moves every live shot, lets it hit the
      first active enemy it overlaps, kills it when it leaves the window,
      and compacts the pool. The store and the enemy-shot pool change as
      PlayerPass says. */
  method UpdatePlayerProjectiles(shots: array<Shot>, count: nat, mgr: EnemyManager,
                                 pool: array<Shot>, poolCount: nat, score: int,
                                 damageLevel: int, a: Arena)
    returns (newCount: nat, newPoolCount: nat, newScore: int)
    requires mgr.Valid() && count <= shots.Length && poolCount <= pool.Length
    requires shots != pool
    modifies shots, mgr.slots, pool
    ensures newCount <= count && newPoolCount <= pool.Length
    ensures var (r, b) := PlayerPass(old(shots[..count]), 0, Battle(old(mgr.Live()), old(pool[..poolCount]), score),
                                     DamagePerHit(damageLevel), pool.Length, a);
      && shots[..newCount] == Kept(r, ShotAlive)
      && mgr.Live() == b.enemies && pool[..newPoolCount] == b.pool && newScore == b.score
    ensures mgr.slots[mgr.count..] == old(mgr.slots[mgr.count..])
  {
    var dmg := DamagePerHit(damageLevel);
    var pc: nat, sc: int := poolCount, score;
    for i := 0 to count
      invariant pc <= pool.Length
      invariant PlayerPass(shots[..count], i, Battle(mgr.Live(), pool[..pc], sc), dmg, pool.Length, a)
        == PlayerPass(old(shots[..count]), 0, Battle(old(mgr.Live()), old(pool[..poolCount]), score), dmg, pool.Length, a)
      invariant mgr.slots[mgr.count..] == old(mgr.slots[mgr.count..])
    {
      ghost var cur := shots[..count];
      ghost var b := Battle(mgr.Live(), pool[..pc], sc);
      var p := shots[i];
      if p.alive {
        p := Advance(p, a.dt);
        var j := FindTarget(mgr, ShotBox(p));
        if j < mgr.count {
          pc, sc := StrikeEnemy(mgr, j, dmg, pool, pc, sc, a.math);
          p := p.(alive := false);
        }
        if OutOfBounds(p, a) {
          p := p.(alive := false);
        }
        shots[i] := p;
      }
      assert shots[..count] == cur[i := PlayerShotStep(cur[i], b, dmg, pool.Length, a).0];
    }
    newCount := CompactInPlace(shots, count, ShotAlive);
    newPoolCount, newScore := pc, sc;
  }

  /** One turn of update_enemy_projectiles' loop: shot i moves, and dies
      when it hits the player (hit says whether it did) or leaves the
      window. */
  method StepEnemyShot(shots: array<Shot>, i: nat, player: Rect, a: Arena) returns (hit: bool)
    requires i < shots.Length
    modifies shots
    ensures shots[..] == old(shots[..])[i := EnemyShotStep(old(shots[i]), player, a)]
    ensures hit == HitsPlayer(player, a)(old(shots[i]))
  {
    hit := false;
    var p := shots[i];
    if p.alive {
      p := Advance(p, a.dt);
      if Collides(ShotBox(p), player) {
        hit := true;
        p := p.(alive := false);
      }
      if OutOfBounds(p, a) {
        p := p.(alive := false);
      }
      shots[i] := p;
    }
  }

  /** update_enemy_projectiles: moves every live shot, takes 15 health from
      the player for each one that hits, kills the ones that hit or leave
      the window, and compacts the pool. */
  method UpdateEnemyProjectiles(shots: array<Shot>, count: nat, player: Rect, health: real, a: Arena)
    returns (newCount: nat, newHealth: real)
    requires count <= shots.Length
    modifies shots
    ensures newCount <= count
    ensures shots[..newCount] == Kept(EnemyPass(old(shots[..count]), player, a), ShotAlive)
    ensures newHealth == health - ENEMY_SHOT_DAMAGE * |Kept(old(shots[..count]), HitsPlayer(player, a))| as real
  {
    newHealth := health;
    ghost var hits: nat := 0;
    for i := 0 to count
      invariant hits == |Kept(old(shots[..i]), HitsPlayer(player, a))|
      invariant newHealth == health - ENEMY_SHOT_DAMAGE * hits as real
      invariant forall k :: 0 <= k < i ==> shots[k] == EnemyShotStep(old(shots[k]), player, a)
      invariant forall k :: i <= k < shots.Length ==> shots[k] == old(shots[k])
    {
      assert old(shots[..i + 1]) == old(shots[..i]) + [old(shots[i])];
      KeptSnoc(old(shots[..i]), old(shots[i]), HitsPlayer(player, a));
      var hit := StepEnemyShot(shots, i, player, a);
      if hit {
        newHealth := newHealth - ENEMY_SHOT_DAMAGE;
        hits := hits + 1;
      }
    }
    assert shots[..count] == EnemyPass(old(shots[..count]), player, a);
    assert old(shots[..count]) == old(shots[..count][..count]);
    newCount := CompactInPlace(shots, count, ShotAlive);
  }
}

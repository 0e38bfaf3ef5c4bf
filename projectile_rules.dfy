/** The rules of projectile.c stated on values: shots, the purple-enemy
    death burst, the player-shot hit rule and both per-frame passes. */
module ProjectileRules {
  import opened Geometry
  import opened Compaction
  import opened EnemyRules

  /** Shots are tested as 5 x 5 boxes at their position. */
  const SHOT_SIZE: real := 5.0
  /** Health the player loses per enemy shot that hits. */
  const ENEMY_SHOT_DAMAGE: real := 15.0
  const BURST_COUNT: nat := 8
  const BURST_SPEED: real := 300.0
  /** The float literal the source uses for pi. */
  const PI_F: real := 3.14159

  /** Projectile and EnemyProjectile share this layout: position, velocity
      and the alive flag. */
  datatype Shot = Shot(x: real, y: real, vx: real, vy: real, alive: bool)

  /** The window and the frame the passes run in. */
  datatype Arena = Arena(width: int, height: int, dt: real, math: FloatMath)

  predicate ShotAlive(p: Shot) { p.alive }

  function ShotBox(p: Shot): Rect { Rect(p.x, p.y, SHOT_SIZE, SHOT_SIZE) }

  function Advance(p: Shot, dt: real): Shot
  {
    p.(x := p.x + p.vx * dt, y := p.y + p.vy * dt)
  }

  predicate OutOfBounds(p: Shot, a: Arena)
  {
    p.x < 0.0 || p.x > a.width as real || p.y < 0.0 || p.y > a.height as real
  }

  /** Health a player shot takes off an enemy at a given damage level. */
  function DamagePerHit(level: int): int { 10 + 5 * level }

  // ------------------------------------------------------------ death burst

  function BurstAngle(k: nat): real { k as real * PI_F / 4.0 }

  /** The k-th shot of the burst: from the enemy's centre at angle k*pi/4. */
  function BurstShot(e: Enemy, k: nat, m: FloatMath): Shot
  {
    Shot(e.x + e.w / 2.0, e.y + e.h / 2.0,
         m.cos(BurstAngle(k)) * BURST_SPEED, m.sin(BurstAngle(k)) * BURST_SPEED, true)
  }

  /** How many burst shots fit: up to 8, never past the capacity. */
  function BurstRoom(n: nat, capacity: nat): nat
  {
    if capacity <= n then 0 else if capacity - n < BURST_COUNT then capacity - n else BURST_COUNT
  }

  function BurstShots(e: Enemy, n: nat, m: FloatMath): seq<Shot>
  {
    seq(n, k requires 0 <= k < n => BurstShot(e, k, m))
  }

  /** spawn_purple_enemy_death_projectiles on the enemy-shot pool. */
  function Burst(e: Enemy, pool: seq<Shot>, capacity: nat, m: FloatMath): seq<Shot>
  {
    pool + BurstShots(e, BurstRoom(|pool|, capacity), m)
  }

  /** The burst keeps the pool's old entries, appends min(8, room) alive
      shots at the enemy's centre with angle indices 0, 1, ... in order,
      and never takes the pool past its capacity. */
  lemma BurstRules(e: Enemy, pool: seq<Shot>, capacity: nat, m: FloatMath)
    requires |pool| <= capacity
    ensures var r := Burst(e, pool, capacity, m);
      && |r| <= capacity
      && |r| == |pool| + (if capacity - |pool| < 8 then capacity - |pool| else 8)
      && r[..|pool|] == pool
      && (forall k :: |pool| <= k < |r| ==>
            r[k].alive && r[k].x == e.x + e.w / 2.0 && r[k].y == e.y + e.h / 2.0
            && r[k] == BurstShot(e, k - |pool|, m))
  {
  }

  /** With cos and sin that satisfy cos^2 + sin^2 = 1 at the angle, every
      burst shot flies at exactly 300 units per second. */
  lemma BurstShotSpeed(e: Enemy, k: nat, m: FloatMath)
    requires m.cos(BurstAngle(k)) * m.cos(BurstAngle(k)) + m.sin(BurstAngle(k)) * m.sin(BurstAngle(k)) == 1.0
    ensures BurstShot(e, k, m).vx * BurstShot(e, k, m).vx + BurstShot(e, k, m).vy * BurstShot(e, k, m).vy
      == BURST_SPEED * BURST_SPEED
  {
    var c, s := m.cos(BurstAngle(k)), m.sin(BurstAngle(k));
    calc {
      (c * BURST_SPEED) * (c * BURST_SPEED) + (s * BURST_SPEED) * (s * BURST_SPEED);
      (c * c + s * s) * (BURST_SPEED * BURST_SPEED);
    }
  }

  // ------------------------------------------------------------ player shots

  /** What a player shot can change: the enemies, the enemy-shot pool (by a
      burst) and the score. */
  datatype Battle = Battle(enemies: seq<Enemy>, pool: seq<Shot>, score: int)

  /** Index of the first active enemy at or after from that box b overlaps,
      or |s| when there is none: the inner loop with its break. */
  function FirstTarget(s: seq<Enemy>, b: Rect, from: nat): (j: nat)
    requires from <= |s|
    ensures from <= j <= |s|
    ensures j < |s| ==> Engaged(s[j]) && Collides(b, Box(s[j]))
    ensures forall k :: from <= k < j ==> !(Engaged(s[k]) && Collides(b, Box(s[k])))
    decreases |s| - from
  {
    if from == |s| then |s|
    else if Engaged(s[from]) && Collides(b, Box(s[from])) then from
    else FirstTarget(s, b, from + 1)
  }

  /** A hit on enemy j: health drops by dmg; at zero or below the enemy
      starts exploding, the score rises by 5, and a purple enemy whose burst
      has not fired yet fires it. */
  function Strike(b: Battle, j: nat, dmg: int, capacity: nat, m: FloatMath): Battle
    requires j < |b.enemies|
  {
    var e := b.enemies[j];
    var hurt := e.(health := e.health - dmg);
    if hurt.health > 0 then b.(enemies := b.enemies[j := hurt])
    else
      var dying := hurt.(life := Exploding(EXPLOSION_TIME));
      if e.kind == PURPLE && !e.burstDone then
        Battle(b.enemies[j := dying.(burstDone := true)], Burst(dying, b.pool, capacity, m), b.score + KILL_SCORE)
      else
        Battle(b.enemies[j := dying], b.pool, b.score + KILL_SCORE)
  }

  lemma StrikeRules(b: Battle, j: nat, dmg: int, capacity: nat, m: FloatMath)
    requires j < |b.enemies| && |b.pool| <= capacity
    ensures var e, r := b.enemies[j], Strike(b, j, dmg, capacity, m);
      && |r.enemies| == |b.enemies|
      && (forall k :: 0 <= k < |b.enemies| && k != j ==> r.enemies[k] == b.enemies[k])
      && r.enemies[j].health == e.health - dmg
      && r.enemies[j].(health := e.health, life := e.life, burstDone := e.burstDone) == e
      && (e.health - dmg <= 0 ==> r.enemies[j].life == Exploding(EXPLOSION_TIME) && r.score == b.score + KILL_SCORE)
      && (e.health - dmg > 0 ==> r.enemies[j].life == e.life && r.score == b.score && r.pool == b.pool)
      && (r.pool != b.pool ==> e.kind == PURPLE && !e.burstDone && e.health - dmg <= 0)
      && r.enemies[j].burstDone == (e.burstDone || (e.kind == PURPLE && e.health - dmg <= 0))
      && |b.pool| <= |r.pool| <= capacity
  {
    var e := b.enemies[j];
    if e.health - dmg <= 0 && e.kind == PURPLE && !e.burstDone {
      BurstRules(e.(health := e.health - dmg, life := Exploding(EXPLOSION_TIME)), b.pool, capacity, m);
    }
  }

  /** A 30-health enemy hit at damage level 0 survives two hits and starts
      exploding on the third. */
  lemma ThirdHitKillsFreshGrunt(m: FloatMath)
    ensures var b0 := Battle([NewEnemy(100.0, 100.0, GRUNT, 0)], [], 0);
      var b1 := Strike(b0, 0, DamagePerHit(0), 50, m);
      var b2 := Strike(b1, 0, DamagePerHit(0), 50, m);
      var b3 := Strike(b2, 0, DamagePerHit(0), 50, m);
      && b1.enemies[0].life == Active && b1.enemies[0].health == 20
      && b2.enemies[0].life == Active && b2.enemies[0].health == 10
      && b3.enemies[0].life == Exploding(EXPLOSION_TIME) && b3.score == KILL_SCORE
  {
  }

  /** One iteration of update_player_projectiles' first loop. */
  function PlayerShotStep(p: Shot, b: Battle, dmg: int, capacity: nat, a: Arena): (Shot, Battle)
  {
    if !p.alive then (p, b)
    else
      var q := Advance(p, a.dt);
      var j := FirstTarget(b.enemies, ShotBox(q), 0);
      var hit := if j < |b.enemies| then (q.(alive := false), Strike(b, j, dmg, capacity, a.math)) else (q, b);
      (if OutOfBounds(hit.0, a) then hit.0.(alive := false) else hit.0, hit.1)
  }

  /** What a player shot does to the enemies in one frame: at most one
      enemy changes, it was active and the first one the moved shot
      overlaps, and the shot is spent on it. The shot keeps its velocity,
      and is alive afterwards only if it was before, hit nothing and is
      still inside the window. */
  lemma PlayerShotStepRules(p: Shot, b: Battle, dmg: int, capacity: nat, a: Arena)
    requires |b.pool| <= capacity
    ensures var (q, r) := PlayerShotStep(p, b, dmg, capacity, a);
      && q.vx == p.vx && q.vy == p.vy
      && (q.alive ==> p.alive && !OutOfBounds(q, a))
      && (!p.alive ==> q == p && r == b)
      && (p.alive ==> q.(alive := p.alive) == Advance(p, a.dt))
      && |r.enemies| == |b.enemies|
      && |b.pool| <= |r.pool| <= capacity
      && r.score >= b.score
      && (forall k :: 0 <= k < |b.enemies| && r.enemies[k] != b.enemies[k] ==>
            !q.alive && Engaged(b.enemies[k]) && Alive(r.enemies[k])
            && k == FirstTarget(b.enemies, ShotBox(Advance(p, a.dt)), 0))
      && (p.alive && FirstTarget(b.enemies, ShotBox(Advance(p, a.dt)), 0) < |b.enemies| ==>
            !q.alive && r == Strike(b, FirstTarget(b.enemies, ShotBox(Advance(p, a.dt)), 0), dmg, capacity, a.math))
      && (p.alive && FirstTarget(b.enemies, ShotBox(Advance(p, a.dt)), 0) == |b.enemies| ==> r == b)
  {
    if p.alive {
      var q := Advance(p, a.dt);
      var j := FirstTarget(b.enemies, ShotBox(q), 0);
      if j < |b.enemies| {
        StrikeRules(b, j, dmg, capacity, a.math);
      }
    }
  }

  /** update_player_projectiles' first loop over slots i, i+1, ... */
  function PlayerPass(shots: seq<Shot>, i: nat, b: Battle, dmg: int, capacity: nat, a: Arena): (seq<Shot>, Battle)
    decreases |shots| - i
  {
    if i >= |shots| then (shots, b)
    else
      var st := PlayerShotStep(shots[i], b, dmg, capacity, a);
      PlayerPass(shots[i := st.0], i + 1, st.1, dmg, capacity, a)
  }

  /** The whole pass: slot k of the result comes from slot k of the input
      with the same velocity, is alive only if it was and is inside the
      window; the enemy count is kept, only active enemies are touched and
      none is killed outright (a fatal hit starts an explosion), the score
      never drops and the enemy-shot pool stays within capacity. */
  lemma {:induction false} PlayerPassRules(shots: seq<Shot>, i: nat, b: Battle, dmg: int, capacity: nat, a: Arena)
    requires |b.pool| <= capacity
    ensures var (r, rb) := PlayerPass(shots, i, b, dmg, capacity, a);
      && |r| == |shots|
      && (forall k :: 0 <= k < |shots| ==> r[k].vx == shots[k].vx && r[k].vy == shots[k].vy)
      && (forall k :: 0 <= k < |shots| && r[k].alive ==> shots[k].alive)
      && (forall k :: i <= k < |shots| && r[k].alive ==> !OutOfBounds(r[k], a))
      && (forall k :: 0 <= k < i && k < |shots| ==> r[k] == shots[k])
      && |rb.enemies| == |b.enemies|
      && (forall k :: 0 <= k < |b.enemies| && !Engaged(b.enemies[k]) ==> rb.enemies[k] == b.enemies[k])
      && (forall k :: 0 <= k < |b.enemies| && Alive(b.enemies[k]) ==> Alive(rb.enemies[k]))
      && |b.pool| <= |rb.pool| <= capacity
      && rb.score >= b.score
    decreases |shots| - i
  {
    if i < |shots| {
      var st := PlayerShotStep(shots[i], b, dmg, capacity, a);
      PlayerShotStepRules(shots[i], b, dmg, capacity, a);
      PlayerPassRules(shots[i := st.0], i + 1, st.1, dmg, capacity, a);
      var rb := PlayerPass(shots[i := st.0], i + 1, st.1, dmg, capacity, a).1;
      forall k | 0 <= k < |b.enemies| && !Engaged(b.enemies[k])
        ensures rb.enemies[k] == b.enemies[k]
      {
        assert st.1.enemies[k] == b.enemies[k];
      }
      forall k | 0 <= k < |b.enemies| && Alive(b.enemies[k])
        ensures Alive(rb.enemies[k])
      {
        assert Alive(st.1.enemies[k]);
      }
    }
  }

  /** After the compaction that ends update_player_projectiles every
      remaining shot is alive and inside the window, and there are no more
      shots than before. */
  lemma PlayerSurvivorsInBounds(shots: seq<Shot>, b: Battle, dmg: int, capacity: nat, a: Arena)
    requires |b.pool| <= capacity
    ensures var survivors := Kept(PlayerPass(shots, 0, b, dmg, capacity, a).0, ShotAlive);
      && |survivors| <= |shots|
      && forall k :: 0 <= k < |survivors| ==> survivors[k].alive && !OutOfBounds(survivors[k], a)
  {
    var r := PlayerPass(shots, 0, b, dmg, capacity, a).0;
    PlayerPassRules(shots, 0, b, dmg, capacity, a);
    KeptSatisfies(r, ShotAlive);
  }

  // ------------------------------------------------------------- enemy shots

  /** One iteration of update_enemy_projectiles' first loop. */
  function EnemyShotStep(p: Shot, player: Rect, a: Arena): Shot
  {
    if !p.alive then p
    else
      var q := Advance(p, a.dt);
      var q1 := if Collides(ShotBox(q), player) then q.(alive := false) else q;
      if OutOfBounds(q1, a) then q1.(alive := false) else q1
  }

  function EnemyPass(shots: seq<Shot>, player: Rect, a: Arena): seq<Shot>
  {
    seq(|shots|, k requires 0 <= k < |shots| => EnemyShotStep(shots[k], player, a))
  }

  /** The live enemy shots that hit the player this frame. */
  function HitsPlayer(player: Rect, a: Arena): Shot -> bool
  {
    (p: Shot) => p.alive && Collides(ShotBox(Advance(p, a.dt)), player)
  }

  /** The live enemy shots that are still flying after this frame. */
  function KeepsFlying(player: Rect, a: Arena): Shot -> bool
  {
    (p: Shot) => p.alive && !Collides(ShotBox(Advance(p, a.dt)), player) && !OutOfBounds(Advance(p, a.dt), a)
  }

  function AdvanceAll(shots: seq<Shot>, dt: real): seq<Shot>
  {
    seq(|shots|, k requires 0 <= k < |shots| => Advance(shots[k], dt))
  }

  /** The enemy-shot pool after the frame is exactly the shots that neither
      hit the player nor left the window, moved one step, in their old
      order. */
  lemma {:induction false} EnemyPassSurvivors(shots: seq<Shot>, player: Rect, a: Arena)
    ensures Kept(EnemyPass(shots, player, a), ShotAlive) == AdvanceAll(Kept(shots, KeepsFlying(player, a)), a.dt)
    decreases |shots|
  {
    if shots != [] {
      var n := |shots| - 1;
      var init, last := shots[..n], shots[n];
      assert shots == init + [last];
      EnemyPassSurvivors(init, player, a);
      assert EnemyPass(shots, player, a) == EnemyPass(init, player, a) + [EnemyShotStep(last, player, a)];
      KeptSnoc(EnemyPass(init, player, a), EnemyShotStep(last, player, a), ShotAlive);
      KeptSnoc(init, last, KeepsFlying(player, a));
      var kept := Kept(init, KeepsFlying(player, a));
      if KeepsFlying(player, a)(last) {
        assert AdvanceAll(kept + [last], a.dt) == AdvanceAll(kept, a.dt) + [Advance(last, a.dt)];
      }
    }
  }
}

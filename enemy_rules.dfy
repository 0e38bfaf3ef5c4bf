/** The rules of enemy.c stated on values: the enemy record, the stats a new
    enemy gets, the explosion timer, contact damage, chase movement and the
    push-apart fallback. The class in EnemyStore runs them in place. */
module EnemyRules {
  import opened Geometry
  import opened Compaction

  const GRUNT: int := 1
  const PURPLE: int := 2
  const BOSS: int := 3
  const MINION: int := 4

  /** Seconds an enemy spends exploding before it is dead. */
  const EXPLOSION_TIME: real := 0.3
  /** Health the player loses per enemy it touches. */
  const CONTACT_DAMAGE: real := 15.0
  /** Score for each enemy sent into its explosion. */
  const KILL_SCORE: int := 5
  /** Distance each of two overlapping enemies is pushed per pass. */
  const PUSH_STRENGTH: real := 3.0

  /** The is_alive / is_exploding pair: Active is alive and not exploding,
      Exploding carries the explosion timer, Dead is not alive. The fourth
      combination (exploding but not alive) cannot be written. */
  datatype Life = Active | Exploding(timer: real) | Dead

  /** One slot of the enemy store. burstDone and minionsDone are the
      has_spawned_death_projectiles and has_spawned_minions latches. */
  datatype Enemy = Enemy(
    x: real, y: real, w: real, h: real,
    speed: real,
    health: int, maxHealth: int,
    kind: int,
    life: Life,
    burstDone: bool,
    minionsDone: bool)

  function Box(e: Enemy): Rect { Rect(e.x, e.y, e.w, e.h) }

  /** is_alive */
  predicate Alive(e: Enemy) { !e.life.Dead? }

  /** is_alive && !is_exploding: the enemy moves, blocks, deals and takes damage. */
  predicate Engaged(e: Enemy) { e.life.Active? }

  /** The same enemy with only its position possibly different. */
  predicate SameButPosition(e: Enemy, f: Enemy)
  {
    f == e.(x := f.x, y := f.y)
  }

  // ---------------------------------------------------------------- spawning

  function SpeedFor(kind: int, difficulty: int): real
  {
    if kind == BOSS then 50.0
    else if kind == MINION then 350.0
    else if 150.0 + difficulty as real * 10.0 > 300.0 then 300.0
    else 150.0 + difficulty as real * 10.0
  }

  function MaxHealthFor(kind: int, difficulty: int): int
  {
    if kind == BOSS then 200 + 50 * difficulty
    else if kind == MINION then 10
    else 30 + difficulty * 10
  }

  function SizeFor(kind: int): real
  {
    if kind == BOSS then 100.0 else if kind == MINION then 25.0 else 40.0
  }

  /** The record add_enemy_to_manager writes into the next free slot. */
  function NewEnemy(x: real, y: real, kind: int, difficulty: int): (e: Enemy)
    ensures e.x == x && e.y == y && e.kind == kind
    ensures e.life == Active && !e.burstDone && !e.minionsDone
    ensures e.health == e.maxHealth
    ensures e.w == e.h && e.w > 0.0
    ensures difficulty >= 0 ==> 50.0 <= e.speed <= 350.0 && e.maxHealth >= 10
  {
    var size := SizeFor(kind);
    var hp := MaxHealthFor(kind, difficulty);
    Enemy(x, y, size, size, SpeedFor(kind, difficulty), hp, hp, kind, Active, false, false)
  }

  /** The per-type table of new-enemy stats. */
  lemma NewEnemyStats(x: real, y: real, kind: int, d: int)
    ensures var e := NewEnemy(x, y, kind, d);
      && (kind == BOSS ==> e.w == 100.0 && e.speed == 50.0 && e.maxHealth == 200 + 50 * d)
      && (kind == MINION ==> e.w == 25.0 && e.speed == 350.0 && e.maxHealth == 10)
      && (kind != BOSS && kind != MINION ==>
            e.w == 40.0 && e.maxHealth == 30 + 10 * d
            && e.speed == (if 150.0 + 10.0 * d as real <= 300.0 then 150.0 + 10.0 * d as real else 300.0))
  {
  }

  /** A higher difficulty never gives a weaker or slower enemy of the same type. */
  lemma NewEnemyScalesWithDifficulty(kind: int, d1: int, d2: int)
    requires d1 <= d2
    ensures NewEnemy(0.0, 0.0, kind, d1).maxHealth <= NewEnemy(0.0, 0.0, kind, d2).maxHealth
    ensures NewEnemy(0.0, 0.0, kind, d1).speed <= NewEnemy(0.0, 0.0, kind, d2).speed
  {
  }

  /** Appending to a store of fixed capacity: a no-op when full. */
  function StoreAdd(s: seq<Enemy>, capacity: nat, e: Enemy): (r: seq<Enemy>)
    ensures |s| < capacity ==> r == s + [e]
    ensures |s| >= capacity ==> r == s
  {
    if |s| >= capacity then s else s + [e]
  }

  // ------------------------------------------------------------- explosions

  /** One update_explosions step for one slot. */
  function ExplosionTick(e: Enemy, dt: real): Enemy
  {
    match e.life
    case Exploding(t) => if t - dt <= 0.0 then e.(life := Dead) else e.(life := Exploding(t - dt))
    case _ => e
  }

  /** The order Active < Exploding < Dead; no rule ever moves an enemy back. */
  function LifeRank(l: Life): nat
  {
    match l
    case Active => 0
    case Exploding(_) => 1
    case Dead => 2
  }

  lemma ExplosionTickRules(e: Enemy, dt: real)
    ensures !e.life.Exploding? ==> ExplosionTick(e, dt) == e
    ensures e.life.Exploding? ==>
      && ExplosionTick(e, dt).(life := e.life) == e
      && (ExplosionTick(e, dt).life.Dead? <==> e.life.timer - dt <= 0.0)
      && (!ExplosionTick(e, dt).life.Dead? ==> ExplosionTick(e, dt).life == Exploding(e.life.timer - dt))
    ensures LifeRank(ExplosionTick(e, dt).life) >= LifeRank(e.life)
  {
  }

  function ExplodeAll(s: seq<Enemy>, dt: real): seq<Enemy>
  {
    seq(|s|, k requires 0 <= k < |s| => ExplosionTick(s[k], dt))
  }

  function Sum(dts: seq<real>): real
  {
    if dts == [] then 0.0 else dts[0] + Sum(dts[1..])
  }

  /** ExplosionTick applied over a run of frame times. */
  function Ticks(e: Enemy, dts: seq<real>): Enemy
    decreases |dts|
  {
    if dts == [] then e else Ticks(ExplosionTick(e, dts[0]), dts[1..])
  }

  /** An enemy that starts exploding with timer t > 0 is dead after a run of
      non-negative frame times exactly when they add up to at least t, and
      until then it is still exploding with t minus the elapsed time left. */
  lemma {:induction false} ExplosionEndsWhenTimeRunsOut(e: Enemy, t: real, dts: seq<real>)
    requires e.life == Exploding(t) && t > 0.0
    requires forall k :: 0 <= k < |dts| ==> dts[k] >= 0.0
    ensures Ticks(e, dts).life.Dead? <==> Sum(dts) >= t
    ensures !Ticks(e, dts).life.Dead? ==> Ticks(e, dts).life == Exploding(t - Sum(dts))
    ensures Ticks(e, dts).(life := e.life) == e
    decreases |dts|
  {
    if dts != [] {
      var f := ExplosionTick(e, dts[0]);
      if t - dts[0] <= 0.0 {
        DeadStaysDead(f, dts[1..]);
        SumNonNegative(dts[1..]);
      } else {
        ExplosionEndsWhenTimeRunsOut(f, t - dts[0], dts[1..]);
      }
    }
  }

  lemma {:induction false} DeadStaysDead(e: Enemy, dts: seq<real>)
    requires e.life.Dead?
    ensures Ticks(e, dts) == e
    decreases |dts|
  {
    if dts != [] {
      DeadStaysDead(ExplosionTick(e, dts[0]), dts[1..]);
    }
  }

  lemma {:induction false} SumNonNegative(dts: seq<real>)
    requires forall k :: 0 <= k < |dts| ==> dts[k] >= 0.0
    ensures Sum(dts) >= 0.0
    decreases |dts|
  {
    if dts != [] {
      SumNonNegative(dts[1..]);
    }
  }

  // ---------------------------------------------------------- contact damage

  /** The enemies handle_player_enemy_collision_damage reacts to. */
  function TouchesPlayer(player: Rect): Enemy -> bool
  {
    e => Engaged(e) && Collides(player, Box(e))
  }

  function ContactHit(e: Enemy, player: Rect): Enemy
  {
    if TouchesPlayer(player)(e) then e.(life := Exploding(EXPLOSION_TIME)) else e
  }

  function ContactAll(s: seq<Enemy>, player: Rect): seq<Enemy>
  {
    seq(|s|, k requires 0 <= k < |s| => ContactHit(s[k], player))
  }

  /** Number of enemies that touch the player in this pass. */
  function Contacts(s: seq<Enemy>, player: Rect): nat
  {
    |Kept(s, TouchesPlayer(player))|
  }

  /** After the contact pass no enemy that can still touch the player does,
      so running the pass again deals no damage. */
  lemma {:induction false} ContactPassClearsOverlaps(s: seq<Enemy>, player: Rect)
    ensures forall k :: 0 <= k < |s| ==> !TouchesPlayer(player)(ContactAll(s, player)[k])
    ensures Contacts(ContactAll(s, player), player) == 0
    ensures ContactAll(ContactAll(s, player), player) == ContactAll(s, player)
  {
    KeptNone(ContactAll(s, player), TouchesPlayer(player));
  }

  /** A contact only ever starts an explosion of an active enemy, with the
      full timer; nothing else of the enemy changes. */
  lemma ContactHitRules(e: Enemy, player: Rect)
    ensures TouchesPlayer(player)(e) ==> ContactHit(e, player) == e.(life := Exploding(EXPLOSION_TIME))
    ensures !TouchesPlayer(player)(e) ==> ContactHit(e, player) == e
    ensures LifeRank(ContactHit(e, player).life) >= LifeRank(e.life)
  {
  }

  // ---------------------------------------------------------------- chasing

  /** would_collide: some other enemy that is alive and not exploding
      overlaps a box of size w x h placed at (nx, ny). */
  predicate Blocked(s: seq<Enemy>, w: real, h: real, nx: real, ny: real, ignore: int)
  {
    exists k :: 0 <= k < |s| && k != ignore && Engaged(s[k]) && Collides(Rect(nx, ny, w, h), Box(s[k]))
  }

  /** Changing the ignored slot does not change what blocks it. */
  lemma BlockedIgnoresSelf(s: seq<Enemy>, i: nat, e: Enemy, w: real, h: real, nx: real, ny: real)
    requires i < |s|
    ensures Blocked(s[i := e], w, h, nx, ny, i) == Blocked(s, w, h, nx, ny, i)
  {
    if Blocked(s, w, h, nx, ny, i) {
      var k :| 0 <= k < |s| && k != i && Engaged(s[k]) && Collides(Rect(nx, ny, w, h), Box(s[k]));
      assert s[i := e][k] == s[k];
    }
    if Blocked(s[i := e], w, h, nx, ny, i) {
      var k :| 0 <= k < |s| && k != i && Engaged(s[i := e][k]) && Collides(Rect(nx, ny, w, h), Box(s[i := e][k]));
      assert s[i := e][k] == s[k];
    }
  }

  /** Unit vector toward (dx, dy) as update_single_enemy and
      resolve_any_collisions compute it: left as it is when the length
      sqrtf returns is not positive. */
  function Direction(dx: real, dy: real, m: FloatMath): (real, real)
  {
    var dist := m.sqrt(dx * dx + dy * dy);
    if dist > 0.0 then (dx / dist, dy / dist) else (dx, dy)
  }

  /** Where e would like to be after dt seconds of pursuit of (tx, ty):
      the unit direction times its speed times dt, added to each axis. */
  function ChaseTarget(e: Enemy, tx: real, ty: real, dt: real, m: FloatMath): (real, real)
  {
    var dir := Direction(tx - e.x, ty - e.y, m);
    (e.x + dir.0 * e.speed * dt, e.y + dir.1 * e.speed * dt)
  }

  /** update_single_enemy for slot i of store s: try the x step alone, then
      the y step from wherever x ended up. */
  function ChaseStep(s: seq<Enemy>, i: nat, tx: real, ty: real, dt: real, m: FloatMath): Enemy
    requires i < |s|
  {
    var e := s[i];
    if !Engaged(e) then e
    else
      var target := ChaseTarget(e, tx, ty, dt, m);
      var x1 := if Blocked(s, e.w, e.h, target.0, e.y, i) then e.x else target.0;
      var y1 := if Blocked(s, e.w, e.h, x1, target.1, i) then e.y else target.1;
      e.(x := x1, y := y1)
  }

  /** A chase step changes only the position of an active enemy, commits
      each axis only where it lands clear of every other active enemy, and
      never moves an enemy into an overlap: if it moved at all, its final
      box overlaps no other active enemy. */
  lemma ChaseStepRules(s: seq<Enemy>, i: nat, tx: real, ty: real, dt: real, m: FloatMath)
    requires i < |s|
    ensures var e, r := s[i], ChaseStep(s, i, tx, ty, dt, m);
      && SameButPosition(e, r)
      && (!Engaged(e) ==> r == e)
      && (r.x == e.x || !Blocked(s, e.w, e.h, r.x, e.y, i))
      && (r.y == e.y || !Blocked(s, e.w, e.h, r.x, r.y, i))
      && ((r.x == e.x && r.y == e.y) || !Blocked(s, e.w, e.h, r.x, r.y, i))
      && (Engaged(e) ==>
            var t := ChaseTarget(e, tx, ty, dt, m);
            && (r.x == if Blocked(s, e.w, e.h, t.0, e.y, i) then e.x else t.0)
            && (r.y == if Blocked(s, e.w, e.h, r.x, t.1, i) then e.y else t.1))
  {
  }

  /** update_all_enemies' first loop: slots from i on chase in index order,
      each seeing the moves already made by the slots before it. */
  function ChaseFrom(s: seq<Enemy>, i: nat, tx: real, ty: real, dt: real, m: FloatMath): (r: seq<Enemy>)
    ensures |r| == |s|
    decreases |s| - i
  {
    if i >= |s| then s
    else ChaseFrom(s[i := ChaseStep(s, i, tx, ty, dt, m)], i + 1, tx, ty, dt, m)
  }

  /** Store-level frame property: s and r have the same slots up to the
      positions of active enemies. */
  predicate OnlyActiveMoved(s: seq<Enemy>, r: seq<Enemy>)
  {
    && |r| == |s|
    && (forall k :: 0 <= k < |s| ==> SameButPosition(s[k], r[k]))
    && (forall k :: 0 <= k < |s| && !Engaged(s[k]) ==> r[k] == s[k])
  }

  lemma OnlyActiveMovedTrans(s: seq<Enemy>, t: seq<Enemy>, r: seq<Enemy>)
    requires OnlyActiveMoved(s, t) && OnlyActiveMoved(t, r)
    ensures OnlyActiveMoved(s, r)
  {
  }

  lemma {:induction false} ChaseFromOnlyMovesActive(s: seq<Enemy>, i: nat, tx: real, ty: real, dt: real, m: FloatMath)
    ensures OnlyActiveMoved(s, ChaseFrom(s, i, tx, ty, dt, m))
    decreases |s| - i
  {
    if i < |s| {
      var s' := s[i := ChaseStep(s, i, tx, ty, dt, m)];
      ChaseStepRules(s, i, tx, ty, dt, m);
      assert OnlyActiveMoved(s, s');
      ChaseFromOnlyMovesActive(s', i + 1, tx, ty, dt, m);
      OnlyActiveMovedTrans(s, s', ChaseFrom(s', i + 1, tx, ty, dt, m));
    }
  }

  // ---------------------------------------------------------- pushing apart

  /** One inner-loop step of resolve_any_collisions for the pair (i, j). */
  function PushPair(s: seq<Enemy>, i: nat, j: nat, m: FloatMath): (r: seq<Enemy>)
    requires i < j < |s|
    ensures |r| == |s|
  {
    var a, b := s[i], s[j];
    if Engaged(b) && Collides(Box(a), Box(b)) then
      var dir := Direction(b.x - a.x, b.y - a.y, m);
      s[i := a.(x := a.x - dir.0 * PUSH_STRENGTH, y := a.y - dir.1 * PUSH_STRENGTH)]
       [j := b.(x := b.x + dir.0 * PUSH_STRENGTH, y := b.y + dir.1 * PUSH_STRENGTH)]
    else s
  }

  /** The inner loop for i: partners j, j+1, ... in order. */
  function PushFrom(s: seq<Enemy>, i: nat, j: nat, m: FloatMath): (r: seq<Enemy>)
    requires i < j
    ensures |r| == |s|
    decreases |s| - j
  {
    if j >= |s| || i >= |s| then s else PushFrom(PushPair(s, i, j, m), i, j + 1, m)
  }

  /** The outer loop: every active slot from i on against the slots after it. */
  function ResolveFrom(s: seq<Enemy>, i: nat, m: FloatMath): (r: seq<Enemy>)
    ensures |r| == |s|
    decreases |s| - i
  {
    if i >= |s| then s
    else if Engaged(s[i]) then ResolveFrom(PushFrom(s, i, i + 1, m), i + 1, m)
    else ResolveFrom(s, i + 1, m)
  }

  /** A push moves only the two members of an overlapping active pair, and
      only if slot i is active on entry. */
  lemma PushPairRules(s: seq<Enemy>, i: nat, j: nat, m: FloatMath)
    requires i < j < |s| && Engaged(s[i])
    ensures OnlyActiveMoved(s, PushPair(s, i, j, m))
    ensures !(Engaged(s[j]) && Collides(Box(s[i]), Box(s[j]))) ==> PushPair(s, i, j, m) == s
    ensures forall k :: 0 <= k < |s| && k != i && k != j ==> PushPair(s, i, j, m)[k] == s[k]
  {
  }

  lemma {:induction false} PushFromOnlyMovesActive(s: seq<Enemy>, i: nat, j: nat, m: FloatMath)
    requires i < j && (i < |s| ==> Engaged(s[i]))
    ensures OnlyActiveMoved(s, PushFrom(s, i, j, m))
    decreases |s| - j
  {
    if j < |s| && i < |s| {
      var s' := PushPair(s, i, j, m);
      PushPairRules(s, i, j, m);
      PushFromOnlyMovesActive(s', i, j + 1, m);
      OnlyActiveMovedTrans(s, s', PushFrom(s', i, j + 1, m));
    }
  }

  /** The push-apart pass keeps the count, moves only active enemies, and
      changes nothing but their positions. */
  lemma {:induction false} ResolveOnlyMovesActive(s: seq<Enemy>, i: nat, m: FloatMath)
    ensures OnlyActiveMoved(s, ResolveFrom(s, i, m))
    decreases |s| - i
  {
    if i < |s| {
      if Engaged(s[i]) {
        var s' := PushFrom(s, i, i + 1, m);
        PushFromOnlyMovesActive(s, i, i + 1, m);
        ResolveOnlyMovesActive(s', i + 1, m);
        OnlyActiveMovedTrans(s, s', ResolveFrom(s', i + 1, m));
      } else {
        ResolveOnlyMovesActive(s, i + 1, m);
      }
    }
  }

  /** update_all_enemies as a whole: chase, push apart, then advance explosions. */
  function EnemyFrame(s: seq<Enemy>, tx: real, ty: real, dt: real, m: FloatMath): (r: seq<Enemy>)
    ensures |r| == |s|
  {
    ExplodeAll(ResolveFrom(ChaseFrom(s, 0, tx, ty, dt, m), 0, m), dt)
  }

  /** One frame of enemy updates keeps the count, never moves an enemy back
      in its life cycle, moves only active enemies, leaves every dead entry
      as it is, and changes nothing of any entry but its position and life. */
  lemma EnemyFrameRules(s: seq<Enemy>, tx: real, ty: real, dt: real, m: FloatMath)
    ensures var r := EnemyFrame(s, tx, ty, dt, m);
      && |r| == |s|
      && (forall k :: 0 <= k < |s| ==> LifeRank(r[k].life) >= LifeRank(s[k].life))
      && (forall k :: 0 <= k < |s| && s[k].life.Dead? ==> r[k] == s[k])
      && (forall k :: 0 <= k < |s| && s[k].life.Exploding? ==> r[k] == ExplosionTick(s[k], dt))
      && (forall k :: 0 <= k < |s| ==> r[k].(x := s[k].x, y := s[k].y, life := s[k].life) == s[k])
  {
    var c := ChaseFrom(s, 0, tx, ty, dt, m);
    ChaseFromOnlyMovesActive(s, 0, tx, ty, dt, m);
    ResolveOnlyMovesActive(c, 0, m);
    OnlyActiveMovedTrans(s, c, ResolveFrom(c, 0, m));
  }
}

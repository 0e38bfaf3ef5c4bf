/** The per-frame rules of main.c's game loop stated on values: difficulty,
    the spawn gate, spawn placement and type, the fire volley, the boss and
    purple sweeps and the death rule. rand() is a caller-supplied stream
    rand(0), rand(1), ... read from a position that every draw advances. */
module DriverRules {
  import opened Geometry
  import opened Compaction
  import opened EnemyRules
  import opened ProjectileRules
  import opened UpgradeShop

  const ENEMY_CAPACITY: nat := 1000
  const PLAYER_SHOT_CAPACITY: nat := 30
  const ENEMY_SHOT_CAPACITY: nat := 50
  const START_HEALTH: real := 200.0
  const SHOT_SPEED: real := 500.0
  const MIN_SPAWN_DISTANCE: real := 150.0
  const PLACEMENT_TRIES: nat := 10
  const MINIONS_PER_BOSS: nat := 5
  /** Play time in seconds after which bosses can spawn. */
  const BOSS_TIME: real := 300.0

  // ------------------------------------------------------------- difficulty

  /** C's float-to-int cast: truncation toward zero. */
  function Trunc(r: real): int
  {
    if r >= 0.0 then r.Floor else -((-r).Floor)
  }

  function Difficulty(playTime: real): int
  {
    Trunc(playTime / 30.0)
  }

  /** Difficulty is the number of whole 30-second periods played, and it
      never falls while play time grows. */
  lemma DifficultyRules(t: real, later: real)
    requires 0.0 <= t <= later
    ensures 0 <= Difficulty(t)
    ensures 30.0 * Difficulty(t) as real <= t < 30.0 * (Difficulty(t) + 1) as real
    ensures Difficulty(t) <= Difficulty(later)
  {
    assert (t / 30.0).Floor as real <= t / 30.0 <= later / 30.0;
  }

  // ---------------------------------------------------------- spawn gate

  function MaxEnemies(d: int): int { 15 + 5 * d }

  function SpawnInterval(d: int): real
  {
    var t := 3.0 - d as real * 0.2;
    if t < 0.3 then 0.3 else t
  }

  /** The spawn interval starts at 3 seconds, shrinks by 0.2 per level and
      bottoms out at 0.3 seconds from level 14 on. */
  lemma SpawnIntervalRules(d: int, e: int)
    requires 0 <= d <= e
    ensures 0.3 <= SpawnInterval(d) <= 3.0
    ensures SpawnInterval(e) <= SpawnInterval(d)
    ensures d < 14 ==> SpawnInterval(d) == 3.0 - d as real * 0.2
    ensures d >= 14 ==> SpawnInterval(d) == 0.3
  {
  }

  /** All three conditions of the spawn branch. */
  predicate SpawnGate(timer: real, d: int, engaged: nat, count: nat, capacity: nat)
  {
    timer >= SpawnInterval(d) && engaged < MaxEnemies(d) && count < capacity
  }

  // ------------------------------------------------------------- placement

  /** The candidate of one attempt: a side from the first draw, the position
      along it from the second. */
  function Candidate(rand: nat -> nat, at: nat): (real, real)
  {
    EdgePoint(rand(at), rand(at + 1))
  }

  /** The point on the edge strip chosen by draw r at the offset chosen by
      draw v. */
  function EdgePoint(r: nat, v: nat): (real, real)
  {
    var side := r % 4;
    if side == 0 then ((v % 700) as real + 50.0, 20.0)
    else if side == 1 then (750.0, (v % 500) as real + 50.0)
    else if side == 2 then ((v % 700) as real + 50.0, 550.0)
    else (20.0, (v % 500) as real + 50.0)
  }

  predicate FarFrom(c: (real, real), px: real, py: real, m: FloatMath)
  {
    m.sqrt((c.0 - px) * (c.0 - px) + (c.1 - py) * (c.1 - py)) > MIN_SPAWN_DISTANCE
  }

  /** Stream position of attempt q of a search whose first draw is at at. */
  function Attempt(at: nat, q: nat): nat
  {
    at + 2 * q
  }

  /** Whether the candidate drawn at each stream position is far enough. */
  function FarStream(rand: nat -> nat, px: real, py: real, m: FloatMath): nat -> bool
  {
    (a: nat) => FarFrom(Candidate(rand, a), px, py, m)
  }

  /** A spawn position and the stream position after its draws. */
  datatype Spot = Spot(x: real, y: real, next: nat)

  /** The fallback after a search that found nothing: a point drawn from
      two values at stream position at. */
  function Fallback(rand: nat -> nat, at: nat): Spot
  {
    Spot((rand(at) % 700) as real + 50.0, (rand(at + 1) % 500) as real + 50.0, at + 2)
  }

  /** The search loop with `left` attempts to go, the next one drawing at
      stream position at, followed by the fallback; far tells, for each
      stream position, whether the candidate drawn there is far enough. */
  function Search(rand: nat -> nat, at: nat, left: nat, far: nat -> bool): Spot
    decreases left
  {
    if left == 0 then Fallback(rand, at)
    else if far(at) then Spot(Candidate(rand, at).0, Candidate(rand, at).1, at + 2)
    else Search(rand, at + 2, left - 1, far)
  }

  /** The placement loop of the spawn branch and its fallback. */
  function Placement(rand: nat -> nat, start: nat, px: real, py: real, m: FloatMath): Spot
  {
    Search(rand, start, PLACEMENT_TRIES, FarStream(rand, px, py, m))
  }

  /** The number of attempts that fail before the first one (of left) whose
      candidate is far; left when none is. */
  function FailedAttempts(far: nat -> bool, at: nat, left: nat): (n: nat)
    ensures n <= left
    decreases left
  {
    if left == 0 || far(at) then 0 else 1 + FailedAttempts(far, at + 2, left - 1)
  }

  /** Every attempt before the first far one fails, and that one is far. */
  lemma {:induction false} FailedAttemptsRules(far: nat -> bool, at: nat, left: nat)
    ensures var n := FailedAttempts(far, at, left);
      && (forall q :: 0 <= q < n ==> !far(Attempt(at, q)))
      && (n < left ==> far(Attempt(at, n)))
    decreases left
  {
    if left > 0 && !far(at) {
      FailedAttemptsRules(far, at + 2, left - 1);
      var n := FailedAttempts(far, at, left);
      forall q | 0 <= q < n
        ensures !far(Attempt(at, q))
      {
        if q > 0 {
          assert Attempt(at, q) == Attempt(at + 2, q - 1);
        }
      }
      assert Attempt(at, n) == Attempt(at + 2, n - 1);
    }
  }

  /** The search takes the candidate of the first far attempt, or falls
      back at the stream position after all of them. */
  lemma {:induction false} SearchRules(rand: nat -> nat, at: nat, left: nat, far: nat -> bool)
    ensures var n := FailedAttempts(far, at, left);
      var c := Candidate(rand, Attempt(at, n));
      Search(rand, at, left, far)
        == if n < left then Spot(c.0, c.1, Attempt(at, n) + 2) else Fallback(rand, Attempt(at, left))
    decreases left
  {
    if left > 0 && !far(at) {
      SearchRules(rand, at + 2, left - 1, far);
      var n := FailedAttempts(far, at, left);
      assert Attempt(at, n) == Attempt(at + 2, n - 1);
      assert Attempt(at, left) == Attempt(at + 2, left - 1);
    }
  }

  /** The placement loop draws between one and eleven pairs of values. */
  lemma PlacementDraws(rand: nat -> nat, start: nat, px: real, py: real, m: FloatMath)
    ensures var p := Placement(rand, start, px, py, m);
      start + 2 <= p.next <= start + 2 * PLACEMENT_TRIES + 2
  {
    SearchRules(rand, start, PLACEMENT_TRIES, FarStream(rand, px, py, m));
  }

  /** The ten attempts of the placement loop: the first n fail, and either
      attempt n is far and its candidate is taken, or all ten fail and the
      fallback lies in [50, 749] x [50, 549]. */
  lemma PlacementRules(rand: nat -> nat, start: nat, px: real, py: real, m: FloatMath)
    ensures var p := Placement(rand, start, px, py, m);
      var far := FarStream(rand, px, py, m);
      var n := FailedAttempts(far, start, PLACEMENT_TRIES);
      && (forall q :: 0 <= q < n ==> !far(Attempt(start, q)))
      && (n < PLACEMENT_TRIES ==>
            far(Attempt(start, n)) && (p.x, p.y) == Candidate(rand, Attempt(start, n))
            && p.next == Attempt(start, n) + 2)
      && (n == PLACEMENT_TRIES ==>
            50.0 <= p.x <= 749.0 && 50.0 <= p.y <= 549.0 && p.next == Attempt(start, PLACEMENT_TRIES) + 2)
  {
    FailedAttemptsRules(FarStream(rand, px, py, m), start, PLACEMENT_TRIES);
    SearchRules(rand, start, PLACEMENT_TRIES, FarStream(rand, px, py, m));
  }

  // ------------------------------------------------------------------ type

  /** The enemy type and the stream position after its draws: purple on a
      one-in-three draw, and after 300 seconds a second draw can turn it
      into a boss. */
  function ChooseKind(rand: nat -> nat, at: nat, playTime: real): (int, nat)
  {
    var first := if rand(at) % 3 == 0 then PURPLE else GRUNT;
    if playTime > BOSS_TIME then
      (if rand(at + 1) % 20 == 0 then BOSS else first, at + 2)
    else (first, at + 1)
  }

  function ClampSpawn(x: real, y: real, width: int, height: int): (real, real)
  {
    (if x > (width - 50) as real then (width - 50) as real else x,
     if y > (height - 50) as real then (height - 50) as real else y)
  }

  /** The enemy the spawn branch adds, and the stream position after it. */
  function Spawned(rand: nat -> nat, at: nat, px: real, py: real, width: int, height: int,
                   playTime: real, d: int, m: FloatMath): (Enemy, nat)
  {
    var p := Placement(rand, at, px, py, m);
    var (kind, next) := ChooseKind(rand, p.next, playTime);
    var (x, y) := ClampSpawn(p.x, p.y, width, height);
    (NewEnemy(x, y, kind, d), next)
  }

  /** A spawned enemy is an active grunt, purple or boss (a boss only after
      300 seconds), placed where the clamp allows and no further right or
      down than it was drawn, after at most 24 draws. */
  lemma SpawnedRules(rand: nat -> nat, at: nat, px: real, py: real, width: int, height: int,
                     playTime: real, d: int, m: FloatMath)
    ensures var (e, next) := Spawned(rand, at, px, py, width, height, playTime, d, m);
      var p := Placement(rand, at, px, py, m);
      && e.kind in {GRUNT, PURPLE, BOSS}
      && (e.kind == BOSS ==> playTime > BOSS_TIME)
      && e.life == Active && e.health == e.maxHealth
      && e.x <= (width - 50) as real && e.y <= (height - 50) as real
      && e.x <= p.x && e.y <= p.y
      && (p.x <= (width - 50) as real ==> e.x == p.x)
      && (p.y <= (height - 50) as real ==> e.y == p.y)
      && at + 3 <= next <= at + 2 * PLACEMENT_TRIES + 4
  {
    PlacementDraws(rand, at, px, py, m);
  }

  // ------------------------------------------------------------------ fire

  /** The primary shot's velocity: along the aim vector at 500, or straight
      right when the aim vector has no length. */
  function AimVelocity(dx: real, dy: real, m: FloatMath): (real, real)
  {
    AimAlong(dx, dy, m.sqrt(dx * dx + dy * dy))
  }

  function AimAlong(dx: real, dy: real, dist: real): (real, real)
  {
    if dist > 0.0 then ((dx / dist) * SHOT_SPEED, (dy / dist) * SHOT_SPEED) else (SHOT_SPEED, 0.0)
  }

  /** A zero aim vector fires straight right at 500 when sqrt(0) is 0;
      any other aim, once sqrt has turned it into a unit vector, fires at
      exactly 500 along it. */
  lemma AimVelocityRules(dx: real, dy: real, m: FloatMath)
    ensures dx == 0.0 && dy == 0.0 && m.sqrt(0.0) == 0.0 ==> AimVelocity(dx, dy, m) == (SHOT_SPEED, 0.0)
    ensures var s := m.sqrt(dx * dx + dy * dy);
      s > 0.0 && (dx / s) * (dx / s) + (dy / s) * (dy / s) == 1.0 ==>
        AimVelocity(dx, dy, m).0 * AimVelocity(dx, dy, m).0 + AimVelocity(dx, dy, m).1 * AimVelocity(dx, dy, m).1
          == SHOT_SPEED * SHOT_SPEED
  {
    var s := m.sqrt(dx * dx + dy * dy);
    assert AimVelocity(dx, dy, m) == AimAlong(dx, dy, s);
    AimAlongSpeed(dx, dy, s);
  }

  lemma AimAlongSpeed(dx: real, dy: real, dist: real)
    ensures dist > 0.0 && (dx / dist) * (dx / dist) + (dy / dist) * (dy / dist) == 1.0 ==>
      AimAlong(dx, dy, dist).0 * AimAlong(dx, dy, dist).0 + AimAlong(dx, dy, dist).1 * AimAlong(dx, dy, dist).1
        == SHOT_SPEED * SHOT_SPEED
  {
    if dist > 0.0 && (dx / dist) * (dx / dist) + (dy / dist) * (dy / dist) == 1.0 {
      ScaledUnitLength(dx / dist, dy / dist, SHOT_SPEED);
    }
  }

  /** A unit vector scaled by k has squared length k * k. */
  lemma ScaledUnitLength(u: real, w: real, k: real)
    requires u * u + w * w == 1.0
    ensures (u * k) * (u * k) + (w * k) * (w * k) == k * k
  {
    calc {
      (u * k) * (u * k) + (w * k) * (w * k);
      (u * u + w * w) * (k * k);
    }
  }

  /** An extra shot from (x, y) at the aim angle plus offset. */
  function SpreadShot(x: real, y: real, dx: real, dy: real, offset: real, m: FloatMath): Shot
  {
    var angle := m.atan2(dy, dx) + offset;
    Shot(x, y, m.cos(angle) * SHOT_SPEED, m.sin(angle) * SHOT_SPEED, true)
  }

  /** Everything one click would fire with unlimited room, in firing order:
      the primary shot from the player's centre, the double-shot extra at
      +0.1 and the two triple-shot extras at -0.3 and +0.3. */
  function VolleyShots(player: Rect, mouseX: real, mouseY: real, u: Upgrades, m: FloatMath): (r: seq<Shot>)
    ensures |r| == 1 + (if u.doubleShots then 1 else 0) + (if u.tripleShots then 2 else 0)
  {
    var cx, cy := player.x + player.w / 2.0, player.y + player.h / 2.0;
    var dx, dy := mouseX - cx, mouseY - cy;
    var v := AimVelocity(dx, dy, m);
    [Shot(cx, cy, v.0, v.1, true)]
    + (if u.doubleShots then [SpreadShot(cx, cy, dx, dy, 0.1, m)] else [])
    + (if u.tripleShots then SpreadPair(cx, cy, dx, dy, m) else [])
  }

  /** The two triple-shot extras, left then right. */
  function SpreadPair(x: real, y: real, dx: real, dy: real, m: FloatMath): seq<Shot>
  {
    [SpreadShot(x, y, dx, dy, -0.3, m), SpreadShot(x, y, dx, dy, 0.3, m)]
  }

  /** The player-shot pool after a click: the volley, cut off where the
      pool is full. */
  function Volley(pool: seq<Shot>, capacity: nat, player: Rect, mouseX: real, mouseY: real,
                  u: Upgrades, m: FloatMath): seq<Shot>
  {
    var all := VolleyShots(player, mouseX, mouseY, u, m);
    var room := if |pool| >= capacity then 0 else capacity - |pool|;
    pool + all[..if room < |all| then room else |all|]
  }

  /** A click adds min(room, 1 + double + 2 * triple) alive shots after the
      existing ones, never passes the capacity, adds nothing to a full
      pool, and the first shot added is the primary one from the centre. */
  lemma VolleyRules(pool: seq<Shot>, capacity: nat, player: Rect, mouseX: real, mouseY: real,
                    u: Upgrades, m: FloatMath)
    requires |pool| <= capacity
    ensures var r := Volley(pool, capacity, player, mouseX, mouseY, u, m);
      var want := 1 + (if u.doubleShots then 1 else 0) + (if u.tripleShots then 2 else 0);
      && |r| == |pool| + (if capacity - |pool| < want then capacity - |pool| else want)
      && |r| <= capacity
      && r[..|pool|] == pool
      && (forall k :: |pool| <= k < |r| ==>
            (r[k].alive && r[k].x == player.x + player.w / 2.0 && r[k].y == player.y + player.h / 2.0))
      && (|pool| < capacity ==>
            (r[|pool|].vx == AimVelocity(mouseX - r[|pool|].x, mouseY - r[|pool|].y, m).0
             && r[|pool|].vy == AimVelocity(mouseX - r[|pool|].x, mouseY - r[|pool|].y, m).1))
  {
  }

  // ------------------------------------------------------------ boss sweep

  /** A boss whose explosion has finished and whose minions have not been
      spawned yet. */
  predicate PendingBoss(e: Enemy)
  {
    e.kind == BOSS && e.life == Dead && !e.minionsDone
  }

  function MinionSpot(e: Enemy, rand: nat -> nat, at: nat): (real, real)
  {
    (e.x + (rand(at) % 100) as real - 50.0, e.y + (rand(at + 1) % 100) as real - 50.0)
  }

  /** n add attempts of a minion around boss e, two draws each: attempt k
      draws at positions at + 2k and at + 2k + 1. */
  function AddMinions(s: seq<Enemy>, e: Enemy, n: nat, capacity: nat, rand: nat -> nat, at: nat, d: int): (r: seq<Enemy>)
    requires |s| <= capacity
    ensures |r| == if |s| + n <= capacity then |s| + n else capacity
    ensures r[..|s|] == s
    ensures forall k :: |s| <= k < |r| ==> r[k].kind == MINION && r[k].life == Active && !r[k].minionsDone
    decreases n
  {
    if n == 0 then s
    else
      var before := AddMinions(s, e, n - 1, capacity, rand, at, d);
      var spot := MinionSpot(e, rand, at + 2 * (n - 1));
      var r := StoreAdd(before, capacity, NewEnemy(spot.0, spot.1, MINION, d));
      assert r[..|s|] == before[..|s|];
      r
  }

  /** Attempt n + 1 adds the minion drawn at positions at + 2n and
      at + 2n + 1 after the first n. */
  lemma AddMinionsNext(s: seq<Enemy>, e: Enemy, n: nat, capacity: nat, rand: nat -> nat, at: nat, d: int)
    requires |s| <= capacity
    ensures var spot := MinionSpot(e, rand, at + 2 * n);
      AddMinions(s, e, n + 1, capacity, rand, at, d)
        == StoreAdd(AddMinions(s, e, n, capacity, rand, at, d), capacity, NewEnemy(spot.0, spot.1, MINION, d))
  {
  }

  /** main.c's sweep from slot i on: the loop re-reads the count, so the
      minions it adds are visited too. Returns the store and the stream
      position. */
  function BossSweep(s: seq<Enemy>, i: nat, capacity: nat, rand: nat -> nat, at: nat, d: int): (r: (seq<Enemy>, nat))
    requires |s| <= capacity
    ensures |s| <= |r.0| <= capacity
    decreases capacity - i
  {
    if i >= |s| then (s, at)
    else if PendingBoss(s[i]) then
      BossSweep(Latched(s, i, capacity, rand, at, d), i + 1, capacity, rand, at + 2 * MINIONS_PER_BOSS, d)
    else BossSweep(s, i + 1, capacity, rand, at, d)
  }

  function Pending(s: seq<Enemy>): nat
  {
    |Kept(s, PendingBoss)|
  }

  /** Minions appended by one boss are not pending bosses, so the count
      of pending bosses after slot i is what it was. */
  lemma PendingAfterGrowth(s: seq<Enemy>, i: nat, capacity: nat, rand: nat -> nat, at: nat, d: int)
    requires |s| <= capacity && i < |s|
    ensures Pending(Latched(s, i, capacity, rand, at, d)[i + 1..]) == Pending(s[i + 1..])
  {
    var grown := AddMinions(s, s[i], MINIONS_PER_BOSS, capacity, rand, at, d);
    var s1 := Latched(s, i, capacity, rand, at, d);
    assert s1[i + 1..] == s[i + 1..] + grown[|s|..];
    KeptConcat(s[i + 1..], grown[|s|..], PendingBoss);
    KeptNone(grown[|s|..], PendingBoss);
  }

  /** Slot i counts as one pending boss or none. */
  lemma PendingSplit(s: seq<Enemy>, i: nat)
    requires i < |s|
    ensures Pending(s[i..]) == (if PendingBoss(s[i]) then 1 else 0) + Pending(s[i + 1..])
  {
    assert s[i..] == [s[i]] + s[i + 1..];
    KeptConcat([s[i]], s[i + 1..], PendingBoss);
    assert [s[i]] == [] + [s[i]];
  }

  /** Every pending boss from slot i on costs exactly ten draws (five add
      attempts of two draws each). */
  lemma {:induction false} BossSweepDraws(s: seq<Enemy>, i: nat, capacity: nat, rand: nat -> nat, at: nat, d: int)
    requires |s| <= capacity && i <= |s|
    ensures BossSweep(s, i, capacity, rand, at, d).1 == at + 2 * MINIONS_PER_BOSS * Pending(s[i..])
    decreases capacity - i
  {
    if i < |s| {
      PendingSplit(s, i);
      if PendingBoss(s[i]) {
        PendingAfterGrowth(s, i, capacity, rand, at, d);
        BossSweepDraws(Latched(s, i, capacity, rand, at, d), i + 1, capacity, rand, at + 2 * MINIONS_PER_BOSS, d);
      } else {
        BossSweepDraws(s, i + 1, capacity, rand, at, d);
      }
    }
  }

  /** Every pending boss from slot i on adds five minions, until the store
      is full. */
  lemma {:induction false} BossSweepLength(s: seq<Enemy>, i: nat, capacity: nat, rand: nat -> nat, at: nat, d: int)
    requires |s| <= capacity && i <= |s|
    ensures var n := |s| + MINIONS_PER_BOSS * Pending(s[i..]);
      |BossSweep(s, i, capacity, rand, at, d).0| == if n <= capacity then n else capacity
    decreases capacity - i
  {
    if i < |s| {
      PendingSplit(s, i);
      if PendingBoss(s[i]) {
        var s1 := Latched(s, i, capacity, rand, at, d);
        var p := Pending(s[i + 1..]);
        PendingAfterGrowth(s, i, capacity, rand, at, d);
        BossSweepLength(s1, i + 1, capacity, rand, at + 2 * MINIONS_PER_BOSS, d);
        assert |BossSweep(s, i, capacity, rand, at, d).0| == |BossSweep(s1, i + 1, capacity, rand, at + 2 * MINIONS_PER_BOSS, d).0|;
        assert Pending(s[i..]) == 1 + p;
      } else {
        BossSweepLength(s, i + 1, capacity, rand, at, d);
      }
    } else {
      assert s[i..] == [];
    }
  }

  /** One boss's step of the sweep: its five minion adds appended after
      the old entries (as far as the capacity allows), and its latch set. */
  function Latched(s: seq<Enemy>, i: nat, capacity: nat, rand: nat -> nat, at: nat, d: int): (r: seq<Enemy>)
    requires |s| <= capacity && i < |s|
    ensures |r| == if |s| + MINIONS_PER_BOSS <= capacity then |s| + MINIONS_PER_BOSS else capacity
    ensures r[..|s|] == s[i := s[i].(minionsDone := true)]
    ensures forall k :: |s| <= k < |r| ==> r[k].kind == MINION && r[k].life == Active
  {
    var grown := AddMinions(s, s[i], MINIONS_PER_BOSS, capacity, rand, at, d);
    assert grown[i := s[i].(minionsDone := true)][..|s|] == grown[..|s|][i := s[i].(minionsDone := true)];
    grown[i := s[i].(minionsDone := true)]
  }

  /** The entries after latching boss i: what the rest of the sweep does
      to the grown store, seen from the store before the growth. */
  lemma LatchStepEntries(s: seq<Enemy>, s1: seq<Enemy>, r: seq<Enemy>, i: nat)
    requires i < |s| <= |s1| <= |r| && PendingBoss(s[i])
    requires s1[..|s|] == s[i := s[i].(minionsDone := true)]
    requires forall k :: |s| <= k < |s1| ==> s1[k].kind == MINION && s1[k].life == Active
    requires forall k :: 0 <= k < |s1| ==>
      r[k] == if i + 1 <= k && PendingBoss(s1[k]) then s1[k].(minionsDone := true) else s1[k]
    requires forall k :: |s1| <= k < |r| ==> r[k].kind == MINION && r[k].life == Active
    ensures forall k :: 0 <= k < |s| ==>
      r[k] == if i <= k && PendingBoss(s[k]) then s[k].(minionsDone := true) else s[k]
    ensures forall k :: |s| <= k < |r| ==> r[k].kind == MINION && r[k].life == Active
  {
    forall k | 0 <= k < |s|
      ensures r[k] == if i <= k && PendingBoss(s[k]) then s[k].(minionsDone := true) else s[k]
    {
      assert s1[k] == s1[..|s|][k];
    }
  }

  /** Every pending boss from slot i on gets its latch set, every other old
      entry is unchanged, and everything appended is a fresh minion. */
  lemma {:induction false} BossSweepEntries(s: seq<Enemy>, i: nat, capacity: nat, rand: nat -> nat, at: nat, d: int)
    requires |s| <= capacity && i <= |s|
    ensures var r := BossSweep(s, i, capacity, rand, at, d).0;
      && (forall k :: 0 <= k < |s| ==>
            r[k] == if i <= k && PendingBoss(s[k]) then s[k].(minionsDone := true) else s[k])
      && (forall k :: |s| <= k < |r| ==> r[k].kind == MINION && r[k].life == Active)
    decreases capacity - i, 1
  {
    if i < |s| {
      if PendingBoss(s[i]) {
        PendingBossEntries(s, i, capacity, rand, at, d);
      } else {
        BossSweepEntries(s, i + 1, capacity, rand, at, d);
      }
    }
  }

  /** BossSweepEntries when slot i holds a pending boss. */
  lemma {:induction false} PendingBossEntries(s: seq<Enemy>, i: nat, capacity: nat, rand: nat -> nat, at: nat, d: int)
    requires |s| <= capacity && i < |s| && PendingBoss(s[i])
    ensures var r := BossSweep(s, i, capacity, rand, at, d).0;
      && (forall k :: 0 <= k < |s| ==>
            r[k] == if i <= k && PendingBoss(s[k]) then s[k].(minionsDone := true) else s[k])
      && (forall k :: |s| <= k < |r| ==> r[k].kind == MINION && r[k].life == Active)
    decreases capacity - i, 0
  {
    var s1 := Latched(s, i, capacity, rand, at, d);
    BossSweepEntries(s1, i + 1, capacity, rand, at + 2 * MINIONS_PER_BOSS, d);
    var r := BossSweep(s1, i + 1, capacity, rand, at + 2 * MINIONS_PER_BOSS, d).0;
    assert BossSweep(s, i, capacity, rand, at, d).0 == r;
    LatchStepEntries(s, s1, r, i);
  }

  /** A sweep over a store with no pending boss from slot i on changes
      nothing and draws nothing. */
  lemma {:induction false} BossSweepIdle(s: seq<Enemy>, i: nat, capacity: nat, rand: nat -> nat, at: nat, d: int)
    requires |s| <= capacity
    requires forall k :: i <= k < |s| ==> !PendingBoss(s[k])
    ensures BossSweep(s, i, capacity, rand, at, d) == (s, at)
    decreases capacity - i
  {
    if i < |s| {
      BossSweepIdle(s, i + 1, capacity, rand, at, d);
    }
  }

  /** Minions are spawned once per boss: a second sweep right after the
      first changes nothing and draws nothing. */
  lemma SecondBossSweepIsIdle(s: seq<Enemy>, capacity: nat, rand: nat -> nat, at: nat, d: int)
    requires |s| <= capacity
    ensures var (r, next) := BossSweep(s, 0, capacity, rand, at, d);
      BossSweep(r, 0, capacity, rand, next, d) == (r, next)
  {
    var (r, next) := BossSweep(s, 0, capacity, rand, at, d);
    BossSweepEntries(s, 0, capacity, rand, at, d);
    forall k | 0 <= k < |r|
      ensures !PendingBoss(r[k])
    {
    }
    BossSweepIdle(r, 0, capacity, rand, next, d);
  }

  // ---------------------------------------------------------- purple sweep

  /** A purple enemy that is exploding and has not fired its burst. */
  predicate PendingBurst(e: Enemy)
  {
    e.life.Exploding? && e.kind == PURPLE && !e.burstDone
  }

  /** main.c's sweep from slot j on: each pending purple enemy fires its
      burst into the enemy-shot pool. */
  function PurpleSweep(s: seq<Enemy>, pool: seq<Shot>, j: nat, capacity: nat, m: FloatMath): (seq<Enemy>, seq<Shot>)
    decreases |s| - j
  {
    if j >= |s| then (s, pool)
    else if PendingBurst(s[j]) then
      PurpleSweep(s[j := s[j].(burstDone := true)], Burst(s[j], pool, capacity, m), j + 1, capacity, m)
    else PurpleSweep(s, pool, j + 1, capacity, m)
  }

  /** The sweep latches every pending purple enemy from slot j on and
      changes no other enemy; the pool keeps its old shots, only grows and
      stays within capacity; afterwards no pending purple enemy is left. */
  lemma {:induction false} PurpleSweepRules(s: seq<Enemy>, pool: seq<Shot>, j: nat, capacity: nat, m: FloatMath)
    requires |pool| <= capacity && j <= |s|
    ensures var (r, p) := PurpleSweep(s, pool, j, capacity, m);
      && |r| == |s|
      && (forall k :: 0 <= k < |s| ==>
            r[k] == if j <= k && PendingBurst(s[k]) then s[k].(burstDone := true) else s[k])
      && (forall k :: j <= k < |s| ==> !PendingBurst(r[k]))
      && |pool| <= |p| <= capacity && p[..|pool|] == pool
      && ((forall k :: j <= k < |s| ==> !PendingBurst(s[k])) ==> p == pool)
    decreases |s| - j
  {
    if j < |s| {
      if PendingBurst(s[j]) {
        var b := Burst(s[j], pool, capacity, m);
        BurstRules(s[j], pool, capacity, m);
        PurpleSweepRules(s[j := s[j].(burstDone := true)], b, j + 1, capacity, m);
        var p := PurpleSweep(s[j := s[j].(burstDone := true)], b, j + 1, capacity, m).1;
        assert p[..|pool|] == p[..|b|][..|pool|];
      } else {
        PurpleSweepRules(s, pool, j + 1, capacity, m);
      }
    }
  }

  // ----------------------------------------------------------------- death

  /** C's integer division: truncation toward zero. */
  function CDiv(a: int, b: int): int
    requires b > 0
  {
    if a >= 0 then a / b else -((-a) / b)
  }

  /** The player-death branch on (health, alive, coins). */
  function DeathRule(health: real, alive: bool, score: int, coins: int): (real, bool, int)
  {
    if health <= 0.0 then (0.0, false, coins + CDiv(score, 10)) else (health, alive, coins)
  }

  /** At zero or less health the player is dead at exactly 0 health and
      earns a tenth of the score, rounded down; otherwise nothing changes.
      With a non-negative score the coins never drop. */
  lemma DeathRuleRules(health: real, alive: bool, score: int, coins: int)
    requires score >= 0
    ensures var (h, a, c) := DeathRule(health, alive, score, coins);
      && (health <= 0.0 ==> h == 0.0 && !a && 10 * (c - coins) <= score < 10 * (c - coins + 1))
      && (health > 0.0 ==> h == health && a == alive && c == coins)
      && c >= coins
  {
  }

  // ------------------------------------------------------------ whole frame

  /** Everything one frame of play reads and writes: the enemy store, both
      shot pools, the score, health, whether the player is alive, the
      coins, the game-over flag, the stream position, the spawn timer and
      the play time. */
  datatype World = World(enemies: seq<Enemy>, shots: seq<Shot>, enemyShots: seq<Shot>, score: int,
                         health: real, alive: bool, coins: int, gameOver: bool, drawn: nat,
                         timer: real, playTime: real)

  /** What holds between frames: the store and the pools within their
      capacities, score and clocks not negative, the game-over screen up
      exactly when the player is dead, and the player alive exactly while
      health is positive (and at exactly 0 once dead). */
  predicate Sound(w: World)
  {
    && |w.enemies| <= ENEMY_CAPACITY && |w.shots| <= PLAYER_SHOT_CAPACITY
    && |w.enemyShots| <= ENEMY_SHOT_CAPACITY
    && w.score >= 0 && w.playTime >= 0.0 && w.timer >= 0.0
    && w.gameOver == !w.alive
    && (w.alive ==> w.health > 0.0)
    && (!w.alive ==> w.health == 0.0)
  }

  /** The spawn branch on values: with the gate open, the spawned enemy is
      appended, the stream moves past its draws and the timer restarts;
      with the gate shut store, stream and timer stay. (px, py) is the
      player's position the placement keeps away from. */
  function SpawnPhase(w: World, rand: nat -> nat, px: real, py: real, width: int, height: int,
                      d: int, m: FloatMath): (r: World)
    ensures |w.enemies| <= |r.enemies| <= |w.enemies| + 1 && r.enemies[..|w.enemies|] == w.enemies
    ensures |w.enemies| <= ENEMY_CAPACITY ==> |r.enemies| <= ENEMY_CAPACITY
    ensures r.timer == 0.0 || r == w
    ensures r == w.(enemies := r.enemies, drawn := r.drawn, timer := r.timer)
  {
    if SpawnGate(w.timer, d, |Kept(w.enemies, Engaged)|, |w.enemies|, ENEMY_CAPACITY) then
      var (e, next) := Spawned(rand, w.drawn, px, py, width, height, w.playTime, d, m);
      w.(enemies := w.enemies + [e], drawn := next, timer := 0.0)
    else w
  }

  /** The enemy half of a frame on values: the spawn branch, the chase
      toward (tx, ty) and the push-apart, the boss sweep and the clean-up. */
  function EnemyPhase(w: World, rand: nat -> nat, px: real, py: real, tx: real, ty: real,
                      width: int, height: int, d: int, dt: real, m: FloatMath): World
    requires |w.enemies| <= ENEMY_CAPACITY
  {
    var spawned := SpawnPhase(w, rand, px, py, width, height, d, m);
    var (swept, next) := BossSweep(EnemyFrame(spawned.enemies, tx, ty, dt, m), 0, ENEMY_CAPACITY, rand, spawned.drawn, d);
    spawned.(enemies := Kept(swept, Alive), drawn := next)
  }

  /** After the enemy half the store is within capacity and holds only
      alive enemies, the timer has restarted or kept its value, the stream
      has only moved forward, and nothing but the store, the stream and
      the timer has changed. */
  lemma EnemyPhaseRules(w: World, rand: nat -> nat, px: real, py: real, tx: real, ty: real,
                        width: int, height: int, d: int, dt: real, m: FloatMath)
    requires |w.enemies| <= ENEMY_CAPACITY
    ensures var r := EnemyPhase(w, rand, px, py, tx, ty, width, height, d, dt, m);
      && |r.enemies| <= ENEMY_CAPACITY
      && (forall k :: 0 <= k < |r.enemies| ==> Alive(r.enemies[k]))
      && (r.timer == 0.0 || r.timer == w.timer)
      && r.drawn >= w.drawn
      && r == w.(enemies := r.enemies, drawn := r.drawn, timer := r.timer)
  {
    var spawned := SpawnPhase(w, rand, px, py, width, height, d, m);
    if SpawnGate(w.timer, d, |Kept(w.enemies, Engaged)|, |w.enemies|, ENEMY_CAPACITY) {
      SpawnedRules(rand, w.drawn, px, py, width, height, w.playTime, d, m);
    }
    var moved := EnemyFrame(spawned.enemies, tx, ty, dt, m);
    var (swept, next) := BossSweep(moved, 0, ENEMY_CAPACITY, rand, spawned.drawn, d);
    BossSweepDraws(moved, 0, ENEMY_CAPACITY, rand, spawned.drawn, d);
    KeptSatisfies(swept, Alive);
  }

  /** update_player_projectiles: the pass, then the compaction of the
      player's pool. */
  function PlayerShotPhase(w: World, dmg: int, a: Arena): World
  {
    var (r, b) := PlayerPass(w.shots, 0, Battle(w.enemies, w.enemyShots, w.score), dmg, ENEMY_SHOT_CAPACITY, a);
    w.(enemies := b.enemies, shots := Kept(r, ShotAlive), enemyShots := b.pool, score := b.score)
  }

  /** update_enemy_projectiles: 15 health per shot that hits, then the
      compaction of the enemy pool. */
  function EnemyShotPhase(w: World, player: Rect, a: Arena): World
  {
    w.(enemyShots := Kept(EnemyPass(w.enemyShots, player, a), ShotAlive),
       health := w.health - ENEMY_SHOT_DAMAGE * |Kept(w.enemyShots, HitsPlayer(player, a))| as real)
  }

  /** The contact pass: every enemy touching the player explodes, scores
      5 and takes 15 health. */
  function ContactPhase(w: World, player: Rect): World
  {
    var n := Contacts(w.enemies, player);
    w.(enemies := ContactAll(w.enemies, player), score := w.score + KILL_SCORE * n,
       health := w.health - CONTACT_DAMAGE * n as real)
  }

  /** The purple sweep on the store and the enemy pool. */
  function PurplePhase(w: World, m: FloatMath): World
  {
    var (r, pool) := PurpleSweep(w.enemies, w.enemyShots, 0, ENEMY_SHOT_CAPACITY, m);
    w.(enemies := r, enemyShots := pool)
  }

  /** The projectile half of a frame in main.c's order. */
  function ProjectilePhase(w: World, player: Rect, dmg: int, a: Arena): World
  {
    PurplePhase(ContactPhase(EnemyShotPhase(PlayerShotPhase(w, dmg, a), player, a), player), a.math)
  }

  /** Nobody in the store dies in the projectile half and no purple burst
      is left pending; the store keeps its size, the player's pool keeps
      only alive shots inside the window and never grows, the enemy pool
      stays within its capacity, the score never falls, health never
      rises, and nothing outside the store, the pools, the score and
      health changes. */
  lemma ProjectilePhaseRules(w: World, player: Rect, dmg: int, a: Arena)
    requires |w.enemyShots| <= ENEMY_SHOT_CAPACITY
    requires forall k :: 0 <= k < |w.enemies| ==> Alive(w.enemies[k])
    ensures var r := ProjectilePhase(w, player, dmg, a);
      && |r.enemies| == |w.enemies|
      && (forall k :: 0 <= k < |r.enemies| ==> Alive(r.enemies[k]) && !PendingBurst(r.enemies[k]))
      && |r.shots| <= |w.shots|
      && (forall k :: 0 <= k < |r.shots| ==> r.shots[k].alive && !OutOfBounds(r.shots[k], a))
      && |r.enemyShots| <= ENEMY_SHOT_CAPACITY
      && r.score >= w.score && r.health <= w.health
      && r == w.(enemies := r.enemies, shots := r.shots, enemyShots := r.enemyShots, score := r.score,
                 health := r.health)
  {
    var w1 := PlayerShotPhase(w, dmg, a);
    PlayerPassRules(w.shots, 0, Battle(w.enemies, w.enemyShots, w.score), dmg, ENEMY_SHOT_CAPACITY, a);
    PlayerSurvivorsInBounds(w.shots, Battle(w.enemies, w.enemyShots, w.score), dmg, ENEMY_SHOT_CAPACITY, a);
    var w2 := EnemyShotPhase(w1, player, a);
    var w3 := ContactPhase(w2, player);
    forall k | 0 <= k < |w3.enemies|
      ensures Alive(w3.enemies[k])
    {
      ContactHitRules(w2.enemies[k], player);
    }
    PurpleSweepRules(w3.enemies, w3.enemyShots, 0, ENEMY_SHOT_CAPACITY, a.math);
  }

  /** The player-death branch on the world; the game-over screen comes up
      with it. */
  function DeathPhase(w: World): World
  {
    var (h, alive, coins) := DeathRule(w.health, w.alive, w.score, w.coins);
    w.(health := h, alive := alive, coins := coins, gameOver := w.gameOver || w.health <= 0.0)
  }

  /** One frame of play at the difficulty of the play time: the spawn
      timer advances, then the enemy half, the projectile half and the
      death check run. before is the player box the spawn placement keeps
      away from, player the box the enemies chase and the shots and
      contacts hit. */
  function FrameRule(w: World, rand: nat -> nat, before: Rect, player: Rect, width: int, height: int,
                     dmg: int, dt: real, m: FloatMath): World
    requires |w.enemies| <= ENEMY_CAPACITY
  {
    DeathPhase(ProjectilePhase(EnemyPhase(w.(timer := w.timer + dt), rand, before.x, before.y, player.x, player.y,
                                          width, height, Difficulty(w.playTime), dt, m),
                               player, dmg, Arena(width, height, dt, m)))
  }

  /** The rest of a pass of the game loop with no menu up, once the play
      time has advanced: unless the game is over, a frame is played. */
  function PlayPass(w: World, rand: nat -> nat, before: Rect, player: Rect, width: int, height: int,
                    dmg: int, dt: real, m: FloatMath): World
    requires |w.enemies| <= ENEMY_CAPACITY
  {
    if w.gameOver then w else FrameRule(w, rand, before, player, width, height, dmg, dt, m)
  }

  /** A pass keeps the between-frames invariant and the play time, and
      the score never falls. On the game-over screen nothing changes.
      During play every enemy left is alive with no purple burst pending;
      if the player died health is 0 and a tenth of the score is paid out
      as coins, otherwise the coins stay and health is positive and no
      higher than before. */
  lemma PlayPassRules(w: World, rand: nat -> nat, before: Rect, player: Rect, width: int, height: int,
                      dmg: int, dt: real, m: FloatMath)
    requires Sound(w) && dt >= 0.0
    ensures var r := PlayPass(w, rand, before, player, width, height, dmg, dt, m);
      && Sound(r)
      && r.playTime == w.playTime
      && r.score >= w.score
      && (w.gameOver ==> r == w)
      && (!w.gameOver ==>
            && (forall k :: 0 <= k < |r.enemies| ==> Alive(r.enemies[k]) && !PendingBurst(r.enemies[k]))
            && (r.gameOver ==> r.health == 0.0 && r.coins == w.coins + r.score / 10)
            && (!r.gameOver ==> r.coins == w.coins && 0.0 < r.health <= w.health))
  {
    if !w.gameOver {
      var start := w.(timer := w.timer + dt);
      var d := Difficulty(w.playTime);
      var e := EnemyPhase(start, rand, before.x, before.y, player.x, player.y, width, height, d, dt, m);
      EnemyPhaseRules(start, rand, before.x, before.y, player.x, player.y, width, height, d, dt, m);
      ProjectilePhaseRules(e, player, dmg, Arena(width, height, dt, m));
    }
  }
}

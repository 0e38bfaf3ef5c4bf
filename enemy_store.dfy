/** enemy.c's EnemyManager: a fixed-capacity array whose first count slots
    hold the enemies, updated in place. Every method is proved against the
    value-level rules of EnemyRules. */
module EnemyStore {
  import opened Geometry
  import opened Compaction
  import opened EnemyRules

  class EnemyManager {
    /** enemies_array; its length is max_enemy_capacity. */
    var slots: array<Enemy>
    /** current_enemy_count */
    var count: nat

    ghost predicate Valid()
      reads this
    {
      count <= slots.Length
    }

    /** The meaningful prefix of the store. */
    function Live(): seq<Enemy>
      reads this, slots
      requires Valid()
    {
      slots[..count]
    }

    /** initialize_enemy_manager */
    constructor (capacity: nat)
      ensures Valid() && fresh(slots)
      ensures slots.Length == capacity && count == 0
    {
      slots := new Enemy[capacity];
      count := 0;
    }

    /** cleanup_enemy_manager: the store is released and holds nothing. */
    method Release()
      modifies this
      ensures Valid() && fresh(slots)
      ensures slots.Length == 0 && count == 0
    {
      slots := new Enemy[0];
      count := 0;
    }

    /** add_enemy_to_manager: writes slot count and bumps count, or does
        nothing when the store is full. */
    method Add(x: real, y: real, kind: int, difficulty: int)
      requires Valid()
      modifies this`count, slots
      ensures Valid()
      ensures Live() == StoreAdd(old(Live()), slots.Length, NewEnemy(x, y, kind, difficulty))
      ensures old(count) < slots.Length ==>
        count == old(count) + 1 && slots[..] == old(slots[..])[old(count) := NewEnemy(x, y, kind, difficulty)]
      ensures old(count) >= slots.Length ==> count == old(count) && slots[..] == old(slots[..])
    {
      if count >= slots.Length {
        return;
      }
      slots[count] := NewEnemy(x, y, kind, difficulty);
      count := count + 1;
      assert slots[..count] == old(slots[..count]) + [NewEnemy(x, y, kind, difficulty)];
    }

    /** cleanup_dead_enemies: the prefix becomes its alive entries (exploding
        ones included) in their old order; slots past the new count are not
        written. */
    method Cleanup()
      requires Valid()
      modifies this`count, slots
      ensures Valid()
      ensures Live() == Kept(old(Live()), Alive)
      ensures slots[count..] == old(slots[..])[count..]
    {
      count := CompactInPlace(slots, count, Alive);
    }

    /** update_explosions */
    method UpdateExplosions(dt: real)
      requires Valid()
      modifies slots
      ensures Live() == ExplodeAll(old(Live()), dt)
      ensures slots[count..] == old(slots[count..])
    {
      for i := 0 to count
        invariant forall k :: 0 <= k < i ==> slots[k] == ExplosionTick(old(slots[k]), dt)
        invariant forall k :: i <= k < slots.Length ==> slots[k] == old(slots[k])
      {
        var e := slots[i];
        if e.life.Exploding? {
          var t := e.life.timer - dt;
          if t <= 0.0 {
            slots[i] := e.(life := Dead);
          } else {
            slots[i] := e.(life := Exploding(t));
          }
        }
      }
      assert slots[count..] == old(slots[count..]);
    }

    /** handle_player_enemy_collision_damage: returns the damage dealt to the
        player and the new score. */
    method ContactDamage(player: Rect, score: int) returns (damage: real, newScore: int)
      requires Valid()
      modifies slots
      ensures Live() == ContactAll(old(Live()), player)
      ensures damage == CONTACT_DAMAGE * Contacts(old(Live()), player) as real
      ensures newScore == score + KILL_SCORE * Contacts(old(Live()), player)
      ensures slots[count..] == old(slots[count..])
    {
      damage := 0.0;
      newScore := score;
      ghost var n: nat := 0;
      for i := 0 to count
        invariant n == |Kept(old(slots[..i]), TouchesPlayer(player))|
        invariant damage == CONTACT_DAMAGE * n as real
        invariant newScore == score + KILL_SCORE * n
        invariant forall k :: 0 <= k < i ==> slots[k] == ContactHit(old(slots[k]), player)
        invariant forall k :: i <= k < slots.Length ==> slots[k] == old(slots[k])
      {
        assert old(slots[..i + 1]) == old(slots[..i]) + [old(slots[i])];
        KeptSnoc(old(slots[..i]), old(slots[i]), TouchesPlayer(player));
        var e := slots[i];
        if !Engaged(e) {
          continue;
        }
        if Collides(player, Box(e)) {
          damage := damage + CONTACT_DAMAGE;
          slots[i] := e.(life := Exploding(EXPLOSION_TIME));
          newScore := newScore + KILL_SCORE;
          n := n + 1;
        }
      }
      assert old(slots[..count]) == old(Live());
      assert slots[count..] == old(slots[count..]);
    }

    /** would_collide: is a box the size of e, placed at (nx, ny), overlapped
        by some other active enemy? */
    method WouldCollide(e: Enemy, nx: real, ny: real, ignore: int) returns (r: bool)
      requires Valid()
      ensures r == Blocked(Live(), e.w, e.h, nx, ny, ignore)
    {
      for i := 0 to count
        invariant forall k :: 0 <= k < i && k != ignore && Engaged(slots[k]) ==>
          !Collides(Rect(nx, ny, e.w, e.h), Box(slots[k]))
      {
        if i == ignore {
          continue;
        }
        var other := slots[i];
        if !Alive(other) {
          continue;
        }
        if other.life.Exploding? {
          continue;
        }
        if Collides(Rect(nx, ny, e.w, e.h), Box(other)) {
          assert Live()[i] == other;
          return true;
        }
      }
      r := false;
    }

    /** update_single_enemy for slot i, chasing (tx, ty). */
    method UpdateSingle(i: nat, tx: real, ty: real, dt: real, m: FloatMath)
      requires Valid() && i < count
      modifies slots
      ensures slots[..] == old(slots[..])[i := ChaseStep(old(Live()), i, tx, ty, dt, m)]
    {
      ghost var s := Live();
      var e := slots[i];
      if !Engaged(e) {
        return;
      }
      var target := ChaseTarget(e, tx, ty, dt, m);
      var blocked := WouldCollide(e, target.0, e.y, i);
      if !blocked {
        slots[i] := e.(x := target.0);
      }
      var e1 := slots[i];
      BlockedIgnoresSelf(s, i, e1, e.w, e.h, e1.x, target.1);
      assert Live() == s[i := e1];
      blocked := WouldCollide(e1, e1.x, target.1, i);
      if !blocked {
        slots[i] := e1.(y := target.1);
      }
    }

    /** One pair (i, j) of resolve_any_collisions' inner loop. */
    method PushApart(i: nat, j: nat, m: FloatMath)
      requires Valid() && i < j < count
      modifies slots
      ensures Live() == PushPair(old(Live()), i, j, m)
      ensures slots[count..] == old(slots[count..])
    {
      var a := slots[i];
      var b := slots[j];
      if Engaged(b) && Collides(Box(a), Box(b)) {
        var dir := Direction(b.x - a.x, b.y - a.y, m);
        slots[i] := a.(x := a.x - dir.0 * PUSH_STRENGTH, y := a.y - dir.1 * PUSH_STRENGTH);
        slots[j] := b.(x := b.x + dir.0 * PUSH_STRENGTH, y := b.y + dir.1 * PUSH_STRENGTH);
      }
      assert slots[count..] == old(slots[count..]);
    }

    /** resolve_any_collisions' inner loop for an active slot i. */
    method PushFromSlot(i: nat, m: FloatMath)
      requires Valid() && i < count
      modifies slots
      ensures Live() == PushFrom(old(Live()), i, i + 1, m)
      ensures slots[count..] == old(slots[count..])
    {
      for j := i + 1 to count
        invariant PushFrom(Live(), i, j, m) == PushFrom(old(Live()), i, i + 1, m)
        invariant slots[count..] == old(slots[count..])
      {
        PushApart(i, j, m);
      }
    }

    /** resolve_any_collisions */
    method ResolveCollisions(m: FloatMath)
      requires Valid()
      modifies slots
      ensures Live() == ResolveFrom(old(Live()), 0, m)
      ensures slots[count..] == old(slots[count..])
    {
      for i := 0 to count
        invariant ResolveFrom(Live(), i, m) == ResolveFrom(old(Live()), 0, m)
        invariant slots[count..] == old(slots[count..])
      {
        if !Alive(slots[i]) || slots[i].life.Exploding? {
          continue;
        }
        PushFromSlot(i, m);
      }
    }

    /** update_all_enemies: every slot chases in index order, then the
        push-apart pass, then the explosion timers. */
    method UpdateAll(tx: real, ty: real, dt: real, m: FloatMath)
      requires Valid()
      modifies slots
      ensures Live() == EnemyFrame(old(Live()), tx, ty, dt, m)
      ensures slots[count..] == old(slots[count..])
    {
      for i := 0 to count
        invariant ChaseFrom(Live(), i, tx, ty, dt, m) == ChaseFrom(old(Live()), 0, tx, ty, dt, m)
        invariant slots[count..] == old(slots[count..])
      {
        ghost var cur := Live();
        UpdateSingle(i, tx, ty, dt, m);
        assert Live() == cur[i := ChaseStep(cur, i, tx, ty, dt, m)];
      }
      ResolveCollisions(m);
      UpdateExplosions(dt);
    }
  }
}

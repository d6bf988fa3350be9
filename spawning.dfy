/** The wave queue: its expansion from spawn groups and the spawn stage of a tick. */
module Spawning {
  import opened Catalog
  import opened Waves
  import opened Entities

  /** The queue entry a group contributes: its kind, its interval as the delay, its hp factor. */
  function EntryOf(g: SpawnGroup): QueueEntry {
    QueueEntry(g.kind, g.interval, g.hpMult)
  }

  /** `n` copies of `e`; none when `n` is not positive. */
  function Replicate(e: QueueEntry, n: int): (r: seq<QueueEntry>)
    ensures |r| == if n > 0 then n else 0
    ensures forall i | 0 <= i < |r| :: r[i] == e
    decreases n
  {
    if n <= 0 then [] else Replicate(e, n - 1) + [e]
  }

  /** Number of queue entries the groups produce. */
  function TotalCount(gs: seq<SpawnGroup>): int
    decreases |gs|
  {
    if |gs| == 0 then 0
    else TotalCount(gs[..|gs| - 1]) + (if gs[|gs| - 1].count > 0 then gs[|gs| - 1].count else 0)
  }

  /** The flat spawn queue of a plan: each group, in order, as `count` entries. */
  function Expand(gs: seq<SpawnGroup>): (q: seq<QueueEntry>)
    ensures |q| == TotalCount(gs)
    decreases |gs|
  {
    if |gs| == 0 then []
    else Expand(gs[..|gs| - 1]) + Replicate(EntryOf(gs[|gs| - 1]), gs[|gs| - 1].count)
  }

  lemma {:induction false} ExpandAppend(a: seq<SpawnGroup>, b: seq<SpawnGroup>)
    ensures Expand(a + b) == Expand(a) + Expand(b)
    ensures TotalCount(a + b) == TotalCount(a) + TotalCount(b)
    decreases |b|
  {
    if |b| == 0 {
      assert a + b == a;
    } else {
      var n := |b| - 1;
      assert (a + b)[..|a + b| - 1] == a + b[..n];
      assert (a + b)[|a + b| - 1] == b[n];
      ExpandAppend(a, b[..n]);
    }
  }

  /** Queue `q` holds group `g` of `gs` as its own slice, right after the
      groups before it, every entry carrying the group's kind, interval and
      hp factor. */
  ghost predicate GroupSlice(q: seq<QueueEntry>, gs: seq<SpawnGroup>, g: nat)
    requires g < |gs|
  {
    && 0 <= TotalCount(gs[..g]) <= TotalCount(gs[..g + 1]) <= |q|
    && q[TotalCount(gs[..g])..TotalCount(gs[..g + 1])] == Replicate(EntryOf(gs[g]), gs[g].count)
  }

  /** Group `i` occupies its own slice of the queue, right after the groups
      before it, and every entry of the slice carries the group's kind,
      interval and hp factor. */
  lemma ExpandGroup(gs: seq<SpawnGroup>, i: nat)
    requires i < |gs|
    ensures 0 <= TotalCount(gs[..i]) <= TotalCount(gs[..i + 1]) <= |Expand(gs)|
    ensures Expand(gs)[TotalCount(gs[..i])..TotalCount(gs[..i + 1])]
         == Replicate(EntryOf(gs[i]), gs[i].count)
  {
    assert gs == gs[..i + 1] + gs[i + 1..];
    ExpandAppend(gs[..i + 1], gs[i + 1..]);
    assert gs[..i + 1][..i] == gs[..i];
    TotalCountNonNegative(gs[..i]);
    TotalCountNonNegative(gs[i + 1..]);
    var a := Expand(gs[..i]);
    var q := Expand(gs);
    assert q == a + Replicate(EntryOf(gs[i]), gs[i].count) + Expand(gs[i + 1..]);
  }

  lemma {:induction false} TotalCountNonNegative(gs: seq<SpawnGroup>)
    ensures TotalCount(gs) >= 0
    decreases |gs|
  {
    if |gs| > 0 {
      TotalCountNonNegative(gs[..|gs| - 1]);
    }
  }

  /** Every queue entry comes from one of the groups. */
  lemma {:induction false} ExpandEntries(gs: seq<SpawnGroup>, k: nat)
    requires k < |Expand(gs)|
    ensures exists i | 0 <= i < |gs| :: Expand(gs)[k] == EntryOf(gs[i])
    decreases |gs|
  {
    var n := |gs| - 1;
    var a := Expand(gs[..n]);
    if k < |a| {
      ExpandEntries(gs[..n], k);
      var i :| 0 <= i < n && a[k] == EntryOf(gs[..n][i]);
      assert Expand(gs)[k] == EntryOf(gs[i]);
    } else {
      assert Expand(gs)[k] == EntryOf(gs[n]);
    }
  }

  /** The queue of any wave satisfies the queue invariant. */
  lemma WaveQueueOk(wave: nat)
    ensures QueueOk(Expand(WaveConfig(wave)))
  {
    var gs := WaveConfig(wave);
    forall k | 0 <= k < |Expand(gs)| ensures Expand(gs)[k].hpMult >= 1.0 {
      ExpandEntries(gs, k);
    }
  }

  lemma FirstAndBossQueues()
    ensures Expand(WaveConfig(1)) == Replicate(QueueEntry(Goblin, 60, 1.0), 5)
    ensures Expand(WaveConfig(5)) == [QueueEntry(Boss, 100, 3.5)] + Replicate(QueueEntry(Goblin, 30, 2.0), 10)
  {
    FirstWaves();
    var g1 := WaveConfig(1);
    assert g1[..0] == [];
    var g5 := WaveConfig(5);
    assert g5[..1] == [g5[0]];
    assert g5[..1][..0] == [];
  }

  /** A freshly spawned enemy at the first waypoint. */
  function NewEnemy(id: nat, kind: EnemyKind, hpMult: real): (e: Enemy)
    ensures e.id == id && e.kind == kind
    ensures hpMult >= 1.0 ==> EnemyOk(e) && e.hp >= EnemyBase(kind).hp
  {
    var s := EnemyBase(kind);
    Enemy(id, kind, ToPoint(Path[0]), s.hp * hpMult, s.hp * hpMult, s.speed, 0, 0, s.reward, 0.0)
  }

  /** Stage 1 of a tick: release or count down the head of the queue, or
      end the wave when the queue and the field are empty. */
  function SpawnStage(w: World): World {
    if |w.queue| > 0 then
      var head := w.queue[0];
      if head.delay <= 0 then
        w.(queue := w.queue[1..],
           enemies := w.enemies + [NewEnemy(w.nextId, head.kind, head.hpMult)],
           nextId := w.nextId + 1)
      else
        w.(queue := [head.(delay := head.delay - 1)] + w.queue[1..])
    else if |w.enemies| == 0 && w.playing then
      w.(playing := false)
    else
      w
  }

  /** With a non-empty queue the stage does exactly one of two things:
      pop the head and spawn its enemy, or count the head's delay down by one.
      A spawned enemy takes the next identity and starts at the first
      waypoint, unfrozen, with no progress, the archetype's speed and reward,
      and full hit points of the archetype's base times the head's hp factor. */
  lemma SpawnCases(w: World)
    requires |w.queue| > 0
    ensures var r := SpawnStage(w);
      && r == w.(queue := r.queue, enemies := r.enemies, nextId := r.nextId)
      && (if w.queue[0].delay <= 0 then
            && r.queue == w.queue[1..]
            && r.enemies == w.enemies + [NewEnemy(w.nextId, w.queue[0].kind, w.queue[0].hpMult)]
            && r.nextId == w.nextId + 1
            && var e := r.enemies[|w.enemies|];
               && e.id == w.nextId && e.kind == w.queue[0].kind
               && e.hp == e.maxHp == EnemyBase(w.queue[0].kind).hp * w.queue[0].hpMult
               && e.speed == EnemyBase(w.queue[0].kind).speed
               && e.reward == EnemyBase(w.queue[0].kind).reward
               && e.pos == ToPoint(Path[0]) && e.pathIndex == 0
               && e.frozen == 0 && e.progress == 0.0
          else
            && r.queue == [w.queue[0].(delay := w.queue[0].delay - 1)] + w.queue[1..]
            && r.enemies == w.enemies
            && r.nextId == w.nextId)
      && |r.queue| + |r.enemies| == |w.queue| + |w.enemies|
  {
  }

  /** The wave ends (play stops) exactly when the queue and the field are both empty. */
  lemma SpawnEndsWave(w: World)
    requires w.playing
    ensures !SpawnStage(w).playing <==> w.queue == [] && w.enemies == []
  {
  }

  /** `n` spawn stages in a row (other stages never touch the queue). */
  function SpawnRepeat(w: World, n: nat): World
    decreases n
  {
    if n == 0 then w else SpawnRepeat(SpawnStage(w), n - 1)
  }

  /** A head entry with delay d is released on the (d+1)-th spawn stage and not before. */
  lemma {:induction false} ReleaseAfterDelay(w: World, n: nat)
    requires |w.queue| > 0 && w.queue[0].delay >= 0
    requires n <= w.queue[0].delay + 1
    ensures n <= w.queue[0].delay ==>
      && SpawnRepeat(w, n).enemies == w.enemies
      && SpawnRepeat(w, n).queue == [w.queue[0].(delay := w.queue[0].delay - n)] + w.queue[1..]
    ensures n == w.queue[0].delay + 1 ==>
      && SpawnRepeat(w, n).queue == w.queue[1..]
      && SpawnRepeat(w, n).enemies == w.enemies + [NewEnemy(w.nextId, w.queue[0].kind, w.queue[0].hpMult)]
    decreases n
  {
    if n > 0 {
      var head := w.queue[0];
      if head.delay == 0 {
        assert SpawnRepeat(w, n) == SpawnStage(w);
      } else {
        var w1 := SpawnStage(w);
        assert w1.queue[0] == head.(delay := head.delay - 1) && w1.queue[1..] == w.queue[1..];
        assert w1.enemies == w.enemies && w1.nextId == w.nextId;
        ReleaseAfterDelay(w1, n - 1);
      }
    }
  }

  lemma SpawnStageOk(w: World)
    requires StoreOk(w)
    ensures StoreOk(SpawnStage(w))
    ensures SpawnStage(w).towers == w.towers && SpawnStage(w).projectiles == w.projectiles
    ensures SpawnStage(w).nextId >= w.nextId
  {
    var r := SpawnStage(w);
    if |w.queue| > 0 && w.queue[0].delay <= 0 {
      var e := NewEnemy(w.nextId, w.queue[0].kind, w.queue[0].hpMult);
      assert r.enemies == w.enemies + [e];
      assert EnemyOk(e);
      forall i, j | 0 <= i < j < |r.enemies| ensures r.enemies[i].id != r.enemies[j].id {
        if j == |w.enemies| {
          assert r.enemies[i].id == w.enemies[i].id < w.nextId;
        }
      }
    }
  }
}

/** The wave generator: a pure map from a wave number to an ordered list of
    spawn groups. */
module Waves {
  import opened Catalog

  datatype SpawnGroup = SpawnGroup(count: int, interval: int, kind: EnemyKind, hpMult: real)

  /** Wave numbers are never negative: the counter starts at 0 and only grows. */
  function WaveConfig(wave: nat): (r: seq<SpawnGroup>)
    ensures 1 <= |r| <= 3
    ensures forall i | 0 <= i < |r| :: r[i].count >= 1 && r[i].hpMult >= 1.0 && r[i].interval > 0
  {
    if wave == 1 then
      [SpawnGroup(5, 60, Goblin, 1.0)]
    else if wave % 5 == 0 then
      [SpawnGroup(1, 100, Boss, 1.0 + (wave as real) * 0.5),
       SpawnGroup(10, 30, Goblin, 1.0 + (wave as real) * 0.2)]
    else
      var difficulty := wave * 10;
      var orcCount := difficulty / 15;
      var goblinCount := (difficulty % 15) / 3;
      (if orcCount > 0 then [SpawnGroup(orcCount, 50, Orc, 1.0 + (wave as real) * 0.1)] else [])
      + (if goblinCount > 0 then [SpawnGroup(goblinCount + 5, 40, Goblin, 1.0 + (wave as real) * 0.1)] else [])
      + (if wave > 3 then [SpawnGroup(wave / 2, 100, Tank, 1.0 + (wave as real) * 0.15)] else [])
  }

  /** An independent reading of the mixed-wave rule in terms of the wave
      number's remainder modulo 3: orcs number floor(2w/3), goblins come as
      8 when w = 1 (mod 3), 6 when w = 2 (mod 3) and not at all when 3 divides w. */
  function MixedWave(wave: nat): seq<SpawnGroup> {
    var m := 1.0 + (wave as real) * 0.1;
    (if wave >= 2 then [SpawnGroup(2 * wave / 3, 50, Orc, m)] else [])
    + (if wave % 3 == 1 then [SpawnGroup(8, 40, Goblin, m)]
       else if wave % 3 == 2 then [SpawnGroup(6, 40, Goblin, m)]
       else [])
    + (if wave > 3 then [SpawnGroup(wave / 2, 100, Tank, 1.0 + (wave as real) * 0.15)] else [])
  }

  lemma MixedWaveRule(wave: nat)
    requires wave != 1 && wave % 5 != 0
    ensures WaveConfig(wave) == MixedWave(wave)
  {
    var q, r := wave / 3, wave % 3;
    assert wave == 3 * q + r;
    if r == 0 {
      assert wave * 10 == 15 * (2 * q);
      assert (wave * 10) / 15 == 2 * q && (wave * 10) % 15 == 0;
      assert 2 * wave / 3 == 2 * q;
    } else if r == 1 {
      assert wave * 10 == 15 * (2 * q) + 10;
      assert (wave * 10) / 15 == 2 * q && (wave * 10) % 15 == 10;
      assert 2 * wave == 3 * (2 * q) + 2;
      assert 2 * wave / 3 == 2 * q;
    } else {
      assert wave * 10 == 15 * (2 * q + 1) + 5;
      assert (wave * 10) / 15 == 2 * q + 1 && (wave * 10) % 15 == 5;
      assert 2 * wave == 3 * (2 * q + 1) + 1;
      assert 2 * wave / 3 == 2 * q + 1;
    }
  }

  /** Outside waves 1 and multiples of 5, the groups come as orcs, then
      goblins, then tanks, and waves divisible by 3 have no goblins. */
  lemma MixedWaveOrder(wave: nat)
    requires wave != 1 && wave % 5 != 0
    ensures WaveConfig(wave)[0] == SpawnGroup(2 * wave / 3, 50, Orc, 1.0 + (wave as real) * 0.1)
    ensures wave % 3 == 0 ==> forall i | 0 <= i < |WaveConfig(wave)| :: WaveConfig(wave)[i].kind != Goblin
    ensures wave % 3 != 0 ==> WaveConfig(wave)[1].kind == Goblin
    ensures (wave > 3) == (WaveConfig(wave)[|WaveConfig(wave)| - 1].kind == Tank)
  {
    MixedWaveRule(wave);
  }

  /** Every multiple of five is a boss wave: one boss, then ten goblins. */
  lemma BossWave(wave: nat)
    requires wave % 5 == 0
    ensures WaveConfig(wave) ==
      [SpawnGroup(1, 100, Boss, 1.0 + (wave as real) * 0.5),
       SpawnGroup(10, 30, Goblin, 1.0 + (wave as real) * 0.2)]
  {
  }

  lemma FirstWaves()
    ensures WaveConfig(1) == [SpawnGroup(5, 60, Goblin, 1.0)]
    ensures WaveConfig(2) == [SpawnGroup(1, 50, Orc, 1.2), SpawnGroup(6, 40, Goblin, 1.2)]
    ensures WaveConfig(3) == [SpawnGroup(2, 50, Orc, 1.3)]
    ensures WaveConfig(4) == [SpawnGroup(2, 50, Orc, 1.4), SpawnGroup(8, 40, Goblin, 1.4), SpawnGroup(2, 100, Tank, 1.6)]
    ensures WaveConfig(5) == [SpawnGroup(1, 100, Boss, 3.5), SpawnGroup(10, 30, Goblin, 2.0)]
  {
  }
}

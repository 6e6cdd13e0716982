/** Mock points for counters that stopped reporting (nodata/judge/judge_cron.go,
    nodata/judge/status.go). */
module Nodata {
  import opened Wrappers
  import opened GoInts

  datatype DataItem = DataItem(ts: int, value: real, fStatus: string, fTs: int)

  datatype NodataConfig = NodataConfig(step: int, mock: real)

  /** "OK" or "NODATA" of the original. */
  datatype Turn = OK | NODATA

  datatype NodataStatus = NodataStatus(status: Turn, cnt: int, ts: int)

  // ----- Time -----

  function EffectiveStep(step: int): (r: int)
    ensures r >= 1
  {
    if step < 1 then 60 else step
  }

  /** Two full periods back, so that a mock does not cover a real point. */
  function GenTs(nowTs: int, step: int): int {
    nowTs - GoMod(nowTs, EffectiveStep(step)) - 2 * EffectiveStep(step)
  }

  function GetTimeout(step: int): int {
    if step < 60 then 180 else step * 3
  }

  const MIN_FLOAT: real := 0.000001

  /** fCompare(left, right) == 0. */
  predicate Same(left: real, right: real) {
    -MIN_FLOAT < left - right < MIN_FLOAT
  }

  // ----- One key, one pass -----

  function LastTs(st: Option<NodataStatus>): int {
    if st.None? then 0 else st.value.ts
  }

  function TurnedOk(now: int): NodataStatus { NodataStatus(OK, 0, now) }

  function TurnedNodata(st: Option<NodataStatus>, now: int): NodataStatus {
    NodataStatus(NODATA, if st.None? then 1 else st.value.cnt + 1, now)
  }

  /** What a pass makes of a key. */
  datatype Outcome = Skipped | Fresh | Held | Mocked(stale: bool)

  function Classify(cfg: NodataConfig, st: Option<NodataStatus>, item: Option<DataItem>, now: int): Outcome {
    var lastTs := now - GetTimeout(cfg.step);
    if item.None? || item.value.fStatus != "OK" || item.value.fTs < lastTs then Skipped
    else
      var due := LastTs(st) + cfg.step <= now;
      if Same(cfg.mock, item.value.value) then (if due then Mocked(false) else Held)
      else if item.value.ts < lastTs then (if due then Mocked(true) else Held)
      else Fresh
  }

  function After(st: Option<NodataStatus>, outcome: Outcome, now: int): Option<NodataStatus> {
    match outcome
    case Skipped => st
    case Held => st
    case Fresh => Some(TurnedOk(now))
    case Mocked(_) => Some(TurnedNodata(st, now))
  }

  /** A mock that was generated, with the point that it replaced. */
  datatype Mock = Mock(key: string, ts: int, now: int, stale: bool, itemTs: int)

  function Lookup<T>(m: map<string, T>, key: string): Option<T> {
    if key in m then Some(m[key]) else None
  }

  class NodataJudge {
    var statusMap: map<string, NodataStatus>
    /** Every mock handed to the sender, in order. */
    var mocks: seq<Mock>

    constructor ()
      ensures statusMap == map[] && mocks == []
    {
      statusMap, mocks := map[], [];
    }

    method TurnOk(key: string, ts: int)
      modifies this`statusMap
      ensures statusMap == old(statusMap)[key := TurnedOk(ts)]
    {
      if key !in statusMap {
        statusMap := statusMap[key := NodataStatus(OK, 0, ts)];
        return;
      }
      var ns := statusMap[key];
      statusMap := statusMap[key := ns.(status := OK, cnt := 0, ts := ts)];
    }

    method TurnNodata(key: string, ts: int)
      modifies this`statusMap
      ensures statusMap == old(statusMap)[key := TurnedNodata(Lookup(old(statusMap), key), ts)]
    {
      if key !in statusMap {
        statusMap := statusMap[key := NodataStatus(NODATA, 1, ts)];
        return;
      }
      var ns := statusMap[key];
      statusMap := statusMap[key := ns.(status := NODATA, cnt := ns.cnt + 1, ts := ts)];
    }

    method TurnAndMock(key: string, cfg: NodataConfig, item: DataItem, now: int, stale: bool)
      modifies this
      ensures statusMap == old(statusMap)[key := TurnedNodata(Lookup(old(statusMap), key), now)]
      ensures mocks == old(mocks) + [Mock(key, GenTs(now, cfg.step), now, stale, item.ts)]
    {
      TurnNodata(key, now);
      mocks := mocks + [Mock(key, GenTs(now, cfg.step), now, stale, item.ts)];
    }

    /** The body of the loop in judge. */
    method JudgeKey(key: string, cfg: NodataConfig, item: Option<DataItem>, now: int)
      modifies this
      ensures var outcome := Classify(cfg, Lookup(old(statusMap), key), item, now);
              && statusMap == (match After(Lookup(old(statusMap), key), outcome, now)
                               case Some(st) => old(statusMap)[key := st]
                               case None => old(statusMap))
              && mocks == old(mocks) +
                   (if outcome.Mocked? then [Mock(key, GenTs(now, cfg.step), now, outcome.stale, item.value.ts)]
                     else [])
    {
      hide GenTs;
      if item.None? {
        return;
      }
      var lastTs := now - GetTimeout(cfg.step);
      if item.value.fStatus != "OK" || item.value.fTs < lastTs {
        return;
      }
      var statusTs := LastTs(Lookup(statusMap, key));
      if Same(cfg.mock, item.value.value) {
        if statusTs + cfg.step <= now {
          TurnAndMock(key, cfg, item.value, now, false);
        }
        return;
      }
      if item.value.ts < lastTs {
        if statusTs + cfg.step <= now {
          TurnAndMock(key, cfg, item.value, now, true);
        }
        return;
      }
      TurnOk(key, now);
    }

    /** judge(): one turn for every key; keys without a config are left alone. */
    method JudgeAll(keys: seq<string>, configs: map<string, NodataConfig>, items: map<string, DataItem>, now: int)
      requires forall i, j :: 0 <= i < j < |keys| ==> keys[i] != keys[j]
      modifies this
      ensures forall k :: Lookup(statusMap, k) ==
                if k in keys && k in configs
                then After(Lookup(old(statusMap), k),
                           Classify(configs[k], Lookup(old(statusMap), k), Lookup(items, k), now), now)
                else Lookup(old(statusMap), k)
      ensures forall k :: MocksOf(mocks, k) == MocksOf(old(mocks), k) +
                if k in keys && k in configs
                then MockBy(k, configs[k], Lookup(old(statusMap), k), Lookup(items, k), now)
                else []
    {
      hide Classify, After, MocksOf, GenTs;
      ghost var before, mocks0 := statusMap, mocks;
      for n := 0 to |keys|
        invariant forall k :: Lookup(statusMap, k) ==
                    if k in keys[..n] && k in configs
                    then After(Lookup(before, k), Classify(configs[k], Lookup(before, k), Lookup(items, k), now), now)
                    else Lookup(before, k)
        invariant forall k :: MocksOf(mocks, k) == MocksOf(mocks0, k) +
                    if k in keys[..n] && k in configs
                    then MockBy(k, configs[k], Lookup(before, k), Lookup(items, k), now) else []
      {
        var key := keys[n];
        assert keys[..n + 1] == keys[..n] + [key] && key !in keys[..n];
        if key !in configs {
          continue;
        }
        ghost var was, mocked := statusMap, mocks;
        JudgeKey(key, configs[key], Lookup(items, key), now);
        KeyJudged(key, configs[key], was, statusMap, Lookup(items, key), now);
        MockByAppends(key, configs[key], Lookup(was, key), Lookup(items, key), now, mocked, mocks);
      }
      assert keys[..|keys|] == keys;
    }
  }

  /** The mocks of one key. */
  function MocksOf(mocks: seq<Mock>, key: string): seq<Mock> {
    if mocks == [] then []
    else MocksOf(mocks[..|mocks| - 1], key) + if mocks[|mocks| - 1].key == key then [mocks[|mocks| - 1]] else []
  }

  /** The mock that a pass generates for a key, if any. */
  function MockBy(key: string, cfg: NodataConfig, st: Option<NodataStatus>, item: Option<DataItem>,
                  now: int): seq<Mock> {
    var outcome := Classify(cfg, st, item, now);
    if outcome.Mocked? then [Mock(key, GenTs(now, cfg.step), now, outcome.stale, item.value.ts)] else []
  }

  lemma KeyJudged(key: string, cfg: NodataConfig, was: map<string, NodataStatus>, after: map<string, NodataStatus>,
                  item: Option<DataItem>, now: int)
    requires after == match After(Lookup(was, key), Classify(cfg, Lookup(was, key), item, now), now)
                      case Some(st) => was[key := st]
                      case None => was
    ensures forall k :: Lookup(after, k) ==
              if k == key then After(Lookup(was, key), Classify(cfg, Lookup(was, key), item, now), now)
              else Lookup(was, k)
  {
    hide Classify;
  }

  lemma MockByAppends(key: string, cfg: NodataConfig, st: Option<NodataStatus>, item: Option<DataItem>, now: int,
                      before: seq<Mock>, after: seq<Mock>)
    requires after == before + MockBy(key, cfg, st, item, now)
    ensures forall k :: MocksOf(after, k) == MocksOf(before, k) +
                                              if k == key then MockBy(key, cfg, st, item, now) else []
  {
    hide Classify, GenTs;
    var added := MockBy(key, cfg, st, item, now);
    if added == [] {
      assert after == before;
    } else {
      assert after[..|after| - 1] == before;
    }
  }

  // ----- Runs of one key -----

  datatype Pass = Pass(now: int, item: Option<DataItem>)

  /** The status of a key, its mocks, and the turns it took. */
  datatype KeyState = KeyState(status: Option<NodataStatus>, mocks: seq<Mock>, turns: seq<Turn>)

  function Next(key: string, cfg: NodataConfig, s: KeyState, p: Pass): KeyState {
    var outcome := Classify(cfg, s.status, p.item, p.now);
    KeyState(After(s.status, outcome, p.now),
             s.mocks + MockBy(key, cfg, s.status, p.item, p.now),
             s.turns + if outcome.Fresh? then [OK] else if outcome.Mocked? then [NODATA] else [])
  }

  function Run(key: string, cfg: NodataConfig, passes: seq<Pass>): KeyState {
    if passes == [] then KeyState(None, [], [])
    else Next(key, cfg, Run(key, cfg, passes[..|passes| - 1]), passes[|passes| - 1])
  }

  /** The clock never runs backwards and starts at or after the epoch. */
  predicate Monotone(passes: seq<Pass>) {
    && (forall i :: 0 <= i < |passes| ==> 0 <= passes[i].now)
    && (forall i, j :: 0 <= i < j < |passes| ==> passes[i].now <= passes[j].now)
  }

  /** How many NODATA turns have been taken since the last OK one. */
  function NodataTurns(turns: seq<Turn>): nat {
    if turns == [] || turns[|turns| - 1] == OK then 0 else NodataTurns(turns[..|turns| - 1]) + 1
  }

  ghost predicate WellMocked(m: Mock, key: string, cfg: NodataConfig)
    requires cfg.step >= 1
  {
    && m.key == key && 0 <= m.now && m.ts == GenTs(m.now, cfg.step) && Multiple(m.ts, cfg.step)
    && (m.stale ==> m.ts > m.itemTs)
  }

  /** Mocks are a full step apart, in generation and in timestamp. */
  ghost predicate Spaced(mocks: seq<Mock>, step: int) {
    forall i, j :: 0 <= i < j < |mocks| ==> mocks[i].now + step <= mocks[j].now && mocks[i].ts + step <= mocks[j].ts
  }

  ghost predicate MadeBy(mocks: seq<Mock>, key: string, cfg: NodataConfig, latest: int)
    requires cfg.step >= 1
  {
    forall i :: 0 <= i < |mocks| ==> WellMocked(mocks[i], key, cfg) && mocks[i].now <= latest
  }

  lemma MadeByMore(mocks: seq<Mock>, added: seq<Mock>, key: string, cfg: NodataConfig, latest: int, now: int)
    requires cfg.step >= 1 && MadeBy(mocks, key, cfg, latest) && (mocks != [] ==> latest <= now)
    requires MadeBy(added, key, cfg, now)
    ensures MadeBy(mocks + added, key, cfg, now)
  {
    hide WellMocked;
  }

  ghost predicate Inv(key: string, cfg: NodataConfig, s: KeyState, clock: int)
    requires cfg.step >= 1
  {
    && MadeBy(s.mocks, key, cfg, LastTs(s.status)) && (s.mocks != [] ==> LastTs(s.status) <= clock)
    && Spaced(s.mocks, cfg.step)
    && (s.status.None? <==> s.turns == [])
    && (s.status.Some? ==>
          && s.status.value.status == s.turns[|s.turns| - 1]
          && s.status.value.cnt == NodataTurns(s.turns))
  }

  lemma GenTsAligned(now: int, step: int)
    requires step >= 1
    ensures Multiple(GenTs(now, step), step)
    ensures now >= 0 ==> now - 3 * step < GenTs(now, step) <= now - 2 * step
  {
    AlignDown(now, step);
    FactorMultiple(2, step);
    MultipleSum(now - GoMod(now, step), 2 * step, step);
  }

  lemma GenTsApart(now0: int, now1: int, step: int)
    requires step >= 1 && 0 <= now0 && now0 + step <= now1
    ensures GenTs(now0, step) + step <= GenTs(now1, step)
  {
    hide Multiple;
    AlignDown(now0, step);
    AlignDown(now1, step);
    MultipleGap(now0 - GoMod(now0, step), now1 - GoMod(now1, step), step);
  }

  /** A stale point is older than the mock that replaces it. */
  lemma MockIsNewer(cfg: NodataConfig, st: Option<NodataStatus>, item: Option<DataItem>, now: int)
    requires cfg.step >= 1 && now >= 0 && Classify(cfg, st, item, now) == Mocked(true)
    ensures GenTs(now, cfg.step) > item.value.ts
  {
    GenTsAligned(now, cfg.step);
  }

  lemma NewMock(key: string, cfg: NodataConfig, s: KeyState, p: Pass, clock: int)
    requires cfg.step >= 1 && Inv(key, cfg, s, clock) && 0 <= p.now && clock <= p.now
    requires Classify(cfg, s.status, p.item, p.now).Mocked?
    ensures var added := MockBy(key, cfg, s.status, p.item, p.now);
            |added| == 1 && WellMocked(added[0], key, cfg) && added[0].now == p.now && Spaced(s.mocks + added, cfg.step)
  {
    hide Multiple, GenTs;
    var m := MockBy(key, cfg, s.status, p.item, p.now)[0];
    GenTsAligned(p.now, cfg.step);
    if Classify(cfg, s.status, p.item, p.now).stale {
      MockIsNewer(cfg, s.status, p.item, p.now);
    }
    forall i | 0 <= i < |s.mocks| ensures s.mocks[i].now + cfg.step <= m.now && s.mocks[i].ts + cfg.step <= m.ts {
      GenTsApart(s.mocks[i].now, m.now, cfg.step);
    }
  }

  lemma MockedInv(key: string, cfg: NodataConfig, s: KeyState, added: seq<Mock>, now: int, clock: int)
    requires cfg.step >= 1 && Inv(key, cfg, s, clock) && clock <= now
    requires |added| == 1 && WellMocked(added[0], key, cfg) && added[0].now == now && Spaced(s.mocks + added, cfg.step)
    ensures Inv(key, cfg, KeyState(Some(TurnedNodata(s.status, now)), s.mocks + added, s.turns + [NODATA]), now)
  {
    hide WellMocked, Spaced;
    MadeByMore(s.mocks, added, key, cfg, LastTs(s.status), now);
    hide MadeBy;
    var turns := s.turns + [NODATA];
    assert turns[..|turns| - 1] == s.turns && turns[|turns| - 1] == NODATA;
    assert NodataTurns(turns) == NodataTurns(s.turns) + 1;
  }

  /** Time may pass, and a good point may arrive. */
  lemma QuietInv(key: string, cfg: NodataConfig, s: KeyState, now: int, clock: int)
    requires cfg.step >= 1 && Inv(key, cfg, s, clock) && clock <= now
    ensures Inv(key, cfg, s, now)
    ensures Inv(key, cfg, KeyState(Some(TurnedOk(now)), s.mocks, s.turns + [OK]), now)
  {
    hide WellMocked, Spaced;
    MadeByMore(s.mocks, [], key, cfg, LastTs(s.status), now);
    assert s.mocks + [] == s.mocks;
    hide MadeBy;
    var turns := s.turns + [OK];
    assert turns[|turns| - 1] == OK && NodataTurns(turns) == 0;
  }

  lemma NextInv(key: string, cfg: NodataConfig, s: KeyState, p: Pass, clock: int)
    requires cfg.step >= 1 && Inv(key, cfg, s, clock) && 0 <= p.now && clock <= p.now
    ensures Inv(key, cfg, Next(key, cfg, s, p), p.now)
  {
    hide WellMocked, Spaced, Classify, Inv, NodataTurns;
    var outcome := Classify(cfg, s.status, p.item, p.now);
    if outcome.Mocked? {
      NewMock(key, cfg, s, p, clock);
      MockedInv(key, cfg, s, MockBy(key, cfg, s.status, p.item, p.now), p.now, clock);
    } else {
      assert s.mocks + [] == s.mocks && s.turns + [] == s.turns;
      QuietInv(key, cfg, s, p.now, clock);
    }
  }

  lemma {:induction false} RunInv(key: string, cfg: NodataConfig, passes: seq<Pass>)
    requires cfg.step >= 1 && Monotone(passes)
    ensures Inv(key, cfg, Run(key, cfg, passes), if passes == [] then 0 else passes[|passes| - 1].now)
  {
    hide Inv, Next;
    if passes == [] {
      StartInv(key, cfg);
    } else {
      var n := |passes| - 1;
      RunInv(key, cfg, passes[..n]);
      NextInv(key, cfg, Run(key, cfg, passes[..n]), passes[n], if n == 0 then 0 else passes[n - 1].now);
    }
  }

  lemma StartInv(key: string, cfg: NodataConfig)
    requires cfg.step >= 1
    ensures Inv(key, cfg, KeyState(None, [], []), 0)
  {
  }

  /** Over every run with a clock that does not run backwards: mocks of one key are at least a
      step apart, aligned, strictly increasing, and newer than the stale points they replace. */
  lemma MocksNeverCollide(key: string, cfg: NodataConfig, passes: seq<Pass>)
    requires cfg.step >= 1 && Monotone(passes)
    ensures var mocks := Run(key, cfg, passes).mocks;
            && Spaced(mocks, cfg.step)
            && forall i :: 0 <= i < |mocks| ==>
              Multiple(mocks[i].ts, cfg.step) && (mocks[i].stale ==> mocks[i].ts > mocks[i].itemTs)
  {
    hide Multiple, Spaced;
    RunInv(key, cfg, passes);
  }

  /** The counter of a key counts its NODATA turns since the last OK, and is zero exactly then. */
  lemma CounterCountsNodataTurns(key: string, cfg: NodataConfig, passes: seq<Pass>)
    requires cfg.step >= 1 && Monotone(passes)
    ensures var s := Run(key, cfg, passes);
            s.status.Some? ==>
              && s.status.value.cnt == NodataTurns(s.turns)
              && (s.status.value.cnt == 0 <==> s.status.value.status == OK)
  {
    hide WellMocked, Spaced;
    RunInv(key, cfg, passes);
  }

  lemma RunNext(key: string, cfg: NodataConfig, passes: seq<Pass>, p: Pass)
    ensures Run(key, cfg, passes + [p]) == Next(key, cfg, Run(key, cfg, passes), p)
  {
    var all := passes + [p];
    assert all[..|all| - 1] == passes;
  }

  /** What one more pass does after any run. Without a point that was fetched well and lately, nothing.
      A point that is the mock value itself, or older than three steps (three minutes for a short
      step), is mocked once a step has gone by since the last turn, and raises the counter; before
      that nothing happens. Any other point turns the key OK. */
  lemma PassMeans(key: string, cfg: NodataConfig, passes: seq<Pass>, p: Pass)
    requires cfg.step >= 1 && p.now >= 0
    ensures var s := Run(key, cfg, passes);
            var s' := Run(key, cfg, passes + [p]);
            var oldest := p.now - if cfg.step < 60 then 180 else 3 * cfg.step;
            if p.item.None? || p.item.value.fStatus != "OK" || p.item.value.fTs < oldest then
              s' == s
            else
              var same := cfg.mock - p.item.value.value < 0.000001 && p.item.value.value - cfg.mock < 0.000001;
              if !same && p.item.value.ts >= oldest then
                s' == KeyState(Some(NodataStatus(OK, 0, p.now)), s.mocks, s.turns + [OK])
              else if (if s.status.None? then 0 else s.status.value.ts) + cfg.step > p.now then
                s' == s
              else
                && s'.status == Some(NodataStatus(NODATA, if s.status.None? then 1 else s.status.value.cnt + 1, p.now))
                && s'.turns == s.turns + [NODATA]
                && |s'.mocks| == |s.mocks| + 1 && s.mocks <= s'.mocks
                && var m := s'.mocks[|s.mocks|];
                && m.key == key && m.now == p.now && m.itemTs == p.item.value.ts && m.stale == !same
                && Multiple(m.ts, cfg.step) && p.now - 3 * cfg.step < m.ts <= p.now - 2 * cfg.step
  {
    hide Multiple, GenTs, Run;
    RunNext(key, cfg, passes, p);
    GenTsAligned(p.now, cfg.step);
    var s := Run(key, cfg, passes);
    assert s.mocks + [] == s.mocks && s.turns + [] == s.turns;
  }

  /** The step condition is needed: without it two passes in one second mock the same slot. */
  lemma NoStepNoSpacing(key: string, cfg: NodataConfig) returns (passes: seq<Pass>)
    requires cfg.step < 1
    ensures Monotone(passes)
    ensures var mocks := Run(key, cfg, passes).mocks; |mocks| == 2 && mocks[0].ts == mocks[1].ts
  {
    hide GenTs;
    var item := DataItem(0, cfg.mock, "OK", 100);
    var p := Pass(100, Some(item));
    passes := [p, p];
    assert passes[..1] == [p] && [p][..0] == [];
    assert Run(key, cfg, []) == KeyState(None, [], []);
    assert Classify(cfg, None, p.item, 100) == Mocked(false);
    var st := TurnedNodata(None, 100);
    assert Classify(cfg, Some(st), p.item, 100) == Mocked(false);
    assert Run(key, cfg, [p]).status == Some(st);
  }
}

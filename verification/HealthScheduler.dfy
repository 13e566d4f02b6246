/**
 Due-time scheduling of health checks (gateway/health_check_executor.go): the loop ticks at the
 smallest interval, and each tick decides which services are due. Times are in nanoseconds.
 */
module HealthScheduler {
  import opened Prelude

  const DEFAULT_INTERVAL: int := 10_000_000_000

  datatype Config = Config(id: string, enabled: Option<bool>, checkInterval: int)

  predicate Active(c: Config) { c.enabled != Some(false) }

  function Interval(c: Config): int { if c.checkInterval > 0 then c.checkInterval else DEFAULT_INTERVAL }

  function Slack(tick: int): int { (if tick <= 0 then DEFAULT_INTERVAL else tick) / 2 }

  /** When each service last ran, and how many times it has. */
  datatype Schedule = Schedule(lastRun: map<string, int>, cycle: map<string, nat>)

  const NEVER: Schedule := Schedule(map[], map[])

  predicate Consistent(s: Schedule) { s.lastRun.Keys == s.cycle.Keys }

  // ------------------------------------------------------------------ one tick

  predicate EntryDue(s: Schedule, c: Config, now: int, tick: int) {
    Active(c) && (c.id in s.lastRun ==> now - s.lastRun[c.id] >= Interval(c) - Slack(tick))
  }

  /** The services with an active entry. */
  function ActiveIds(cfgs: seq<Config>): set<string> {
    if cfgs == [] then {}
    else ActiveIds(cfgs[..|cfgs| - 1]) + if Active(cfgs[|cfgs| - 1]) then {cfgs[|cfgs| - 1].id} else {}
  }

  /** The services with an entry that is due. */
  function DueIds(s: Schedule, cfgs: seq<Config>, now: int, tick: int): set<string> {
    if cfgs == [] then {}
    else DueIds(s, cfgs[..|cfgs| - 1], now, tick)
         + if EntryDue(s, cfgs[|cfgs| - 1], now, tick) then {cfgs[|cfgs| - 1].id} else {}
  }

  /** An entry that was never switched off. */
  ghost predicate SwitchedOn(c: Config) { c.enabled.None? || c.enabled.value }

  /** The interval an entry asks for, ten seconds when it asks for none. */
  ghost function Asked(c: Config): int { if c.checkInterval <= 0 then 10_000_000_000 else c.checkInterval }

  /** A service has run before, and not long enough ago for an entry that asks for `interval`: the time
      passed falls short of the interval by more than half a tick. */
  ghost predicate StillEarly(s: Schedule, id: string, interval: int, now: int, tick: int) {
    id in s.lastRun && now - s.lastRun[id] < interval - (if tick > 0 then tick else 10_000_000_000) / 2
  }

  /** A service is due exactly when some entry of it is switched on and not still early. */
  lemma {:induction false} DueMeansSomeEntry(s: Schedule, cfgs: seq<Config>, now: int, tick: int, id: string)
    ensures id in DueIds(s, cfgs, now, tick)
            <==> exists i :: 0 <= i < |cfgs| && cfgs[i].id == id && SwitchedOn(cfgs[i])
                             && !StillEarly(s, id, Asked(cfgs[i]), now, tick)
    decreases |cfgs|
  {
    if cfgs != [] {
      var n := |cfgs| - 1;
      DueMeansSomeEntry(s, cfgs[..n], now, tick, id);
      if i :| 0 <= i < |cfgs| && cfgs[i].id == id && SwitchedOn(cfgs[i]) && !StillEarly(s, id, Asked(cfgs[i]), now, tick) {
        if i < n {
          assert cfgs[..n][i] == cfgs[i];
        }
      }
    }
  }

  /** A service is active exactly when some entry of it is switched on. */
  lemma {:induction false} ActiveMeansSomeEntry(cfgs: seq<Config>, id: string)
    ensures id in ActiveIds(cfgs) <==> exists i :: 0 <= i < |cfgs| && cfgs[i].id == id && SwitchedOn(cfgs[i])
    decreases |cfgs|
  {
    if cfgs != [] {
      var n := |cfgs| - 1;
      ActiveMeansSomeEntry(cfgs[..n], id);
      if i :| 0 <= i < |cfgs| && cfgs[i].id == id && SwitchedOn(cfgs[i]) {
        if i < n {
          assert cfgs[..n][i] == cfgs[i];
        }
      }
    }
  }

  lemma {:induction false} DueWithinActive(s: Schedule, cfgs: seq<Config>, now: int, tick: int)
    ensures DueIds(s, cfgs, now, tick) <= ActiveIds(cfgs) <= DueIds(s, cfgs, now, tick) + s.lastRun.Keys
    decreases |cfgs|
  {
    if cfgs != [] {
      DueWithinActive(s, cfgs[..|cfgs| - 1], now, tick);
    }
  }

  function Cycle(s: Schedule, id: string): nat { if id in s.cycle then s.cycle[id] else 0 }

  /** Exactly the active services are known after a tick; those due ran now and advanced their cycle
      by one, the others are as they were. */
  function Ticked(s: Schedule, cfgs: seq<Config>, now: int, tick: int): (s': Schedule)
    requires Consistent(s)
    ensures Consistent(s') && s'.lastRun.Keys == ActiveIds(cfgs)
  {
    var due := DueIds(s, cfgs, now, tick);
    DueWithinActive(s, cfgs, now, tick);
    Schedule(
      map id | id in ActiveIds(cfgs) :: if id in due then now else s.lastRun[id],
      map id | id in ActiveIds(cfgs) :: if id in due then Cycle(s, id) + 1 else s.cycle[id])
  }

  /** The schedule part way through a tick: the services found due so far are marked as run. */
  function RunsMarked(s: Schedule, due: map<string, nat>, now: int): map<string, int> {
    map id | id in s.lastRun.Keys + due.Keys :: if id in due then now else s.lastRun[id]
  }

  function CyclesMarked(s: Schedule, due: map<string, nat>): map<string, nat> {
    map id | id in s.cycle.Keys + due.Keys :: if id in due then due[id] else s.cycle[id]
  }

  lemma MarkOne(s: Schedule, due: map<string, nat>, now: int, id: string, cycle: nat)
    ensures RunsMarked(s, due[id := cycle], now) == RunsMarked(s, due, now)[id := now]
    ensures CyclesMarked(s, due[id := cycle]) == CyclesMarked(s, due)[id := cycle]
  {
  }

  /** Dropping the services that are no longer active completes the tick. */
  lemma PruneCompletes(s: Schedule, cfgs: seq<Config>, now: int, tick: int, due: map<string, nat>)
    requires Consistent(s) && due.Keys == DueIds(s, cfgs, now, tick)
    requires forall id :: id in due ==> due[id] == Cycle(s, id) + 1
    ensures Ticked(s, cfgs, now, tick)
            == Schedule(Restrict(RunsMarked(s, due, now), ActiveIds(cfgs)), Restrict(CyclesMarked(s, due), ActiveIds(cfgs)))
  {
    DueWithinActive(s, cfgs, now, tick);
  }

  function Restrict<T>(m: map<string, T>, keys: set<string>): map<string, T> {
    map id | id in m && id in keys :: m[id]
  }

  /** One call of the scheduler. */
  datatype Tick = Tick(cfgs: seq<Config>, now: int, period: int)

  /** The schedule after these calls. */
  function Replayed(log: seq<Tick>): (s: Schedule)
    ensures Consistent(s)
  {
    if log == [] then NEVER
    else
      var last := log[|log| - 1];
      Ticked(Replayed(log[..|log| - 1]), last.cfgs, last.now, last.period)
  }

  class Scheduler {
    var serviceLastRun: map<string, int>
    var serviceCycle: map<string, nat>
    ghost var log: seq<Tick>

    ghost predicate Valid()
      reads this
    {
      Model() == Replayed(log)
    }

    function Model(): Schedule
      reads this
    {
      Schedule(serviceLastRun, serviceCycle)
    }

    constructor ()
      ensures Valid() && log == []
    {
      serviceLastRun, serviceCycle, log := map[], map[], [];
    }

    /** Decide one active entry of a service not yet found due. */
    method Decide(ghost was: Schedule, c: Config, now: int, tick: int, due: map<string, nat>) returns (due': map<string, nat>)
      requires Model() == Schedule(RunsMarked(was, due, now), CyclesMarked(was, due)) && Active(c) && c.id !in due
      modifies this`serviceLastRun, this`serviceCycle
      ensures Model() == Schedule(RunsMarked(was, due', now), CyclesMarked(was, due'))
      ensures due' == if EntryDue(was, c, now, tick) then due[c.id := Cycle(was, c.id) + 1] else due
    {
      if c.id in serviceLastRun && now - serviceLastRun[c.id] < Interval(c) - Slack(tick) {
        return due;
      }
      var cycle := (if c.id in serviceCycle then serviceCycle[c.id] else 0) + 1;
      MarkOne(was, due, now, c.id, cycle);
      serviceLastRun := serviceLastRun[c.id := now];
      serviceCycle := serviceCycle[c.id := cycle];
      due' := due[c.id := cycle];
    }

    /** Mark the services due on this tick as run and return their rotation counters. */
    method DueServices(cfgs: seq<Config>, now: int, tick: int) returns (due: map<string, nat>)
      requires Valid()
      modifies this
      ensures Valid() && log == old(log) + [Tick(cfgs, now, tick)]
      ensures due.Keys == DueIds(old(Model()), cfgs, now, tick)
      ensures forall id :: id in due ==> due[id] == Cycle(old(Model()), id) + 1
    {
      due := Advance(cfgs, now, tick);
      log := log + [Tick(cfgs, now, tick)];
      assert log[..|log| - 1] == old(log);
    }

    method Advance(cfgs: seq<Config>, now: int, tick: int) returns (due: map<string, nat>)
      requires Consistent(Model())
      modifies this`serviceLastRun, this`serviceCycle
      ensures Model() == Ticked(old(Model()), cfgs, now, tick)
      ensures due.Keys == DueIds(old(Model()), cfgs, now, tick)
      ensures forall id :: id in due ==> due[id] == Cycle(old(Model()), id) + 1
    {
      due := map[];
      var live := {};
      ghost var was := Model();
      for i := 0 to |cfgs|
        invariant live == ActiveIds(cfgs[..i]) && due.Keys == DueIds(was, cfgs[..i], now, tick)
        invariant forall id :: id in due ==> due[id] == Cycle(was, id) + 1
        invariant Model() == Schedule(RunsMarked(was, due, now), CyclesMarked(was, due))
      {
        assert cfgs[..i + 1][..i] == cfgs[..i];
        var c := cfgs[i];
        if !Active(c) {
          continue;
        }
        live := live + {c.id};
        if c.id in due {
          continue;
        }
        due := Decide(was, c, now, tick, due);
      }
      assert cfgs[..|cfgs|] == cfgs;
      PruneCompletes(was, cfgs, now, tick, due);
      serviceLastRun := Restrict(serviceLastRun, live);
      serviceCycle := Restrict(serviceCycle, live);
    }
  }

  // ------------------------------------------------------------------ many ticks

  /** The ticks of one process: the configuration in force and the clock at each of them. */
  datatype Ticks = Ticks(cfgs: nat -> seq<Config>, at: nat -> int, period: int)

  function After(t: Ticks, k: nat): (s: Schedule)
    ensures Consistent(s)
  {
    if k == 0 then NEVER else Ticked(After(t, k - 1), t.cfgs(k - 1), t.at(k - 1), t.period)
  }

  /** The first `k` calls of a process. */
  function Calls(t: Ticks, k: nat): seq<Tick> { seq(k, i requires 0 <= i < k => Tick(t.cfgs(i), t.at(i), t.period)) }

  /** A scheduler that was called on these ticks holds the schedule they lead to. */
  lemma {:induction false} CallsLeadTo(t: Ticks, k: nat)
    ensures Replayed(Calls(t, k)) == After(t, k)
    decreases k
  {
    if k > 0 {
      CallsLeadTo(t, k - 1);
      assert Calls(t, k)[..k - 1] == Calls(t, k - 1);
    }
  }

  /** Service `id` runs on tick `k`. */
  predicate Runs(t: Ticks, k: nat, id: string) {
    id in DueIds(After(t, k), t.cfgs(k), t.at(k), t.period)
  }

  /** Service `id` is configured and active, with one interval whatever entries it has. */
  ghost predicate HasInterval(cfgs: seq<Config>, id: string, interval: int) {
    && id in ActiveIds(cfgs)
    && forall i :: 0 <= i < |cfgs| && SwitchedOn(cfgs[i]) && cfgs[i].id == id ==> Asked(cfgs[i]) == interval
  }

  predicate ActiveAt(t: Ticks, k: nat, id: string) { id in ActiveIds(t.cfgs(k)) }

  ghost predicate HasIntervalAt(t: Ticks, k: nat, id: string, interval: int) { HasInterval(t.cfgs(k), id, interval) }

  /** What tick `k` leaves recorded for an active service. */
  lemma Recorded(t: Ticks, k: nat, id: string)
    requires ActiveAt(t, k, id)
    ensures !Runs(t, k, id) ==> id in After(t, k).lastRun && id in After(t, k).cycle
    ensures id in After(t, k + 1).lastRun && id in After(t, k + 1).cycle
    ensures After(t, k + 1).lastRun[id] == if Runs(t, k, id) then t.at(k) else After(t, k).lastRun[id]
    ensures After(t, k + 1).cycle[id] == if Runs(t, k, id) then Cycle(After(t, k), id) + 1 else After(t, k).cycle[id]
  {
    DueWithinActive(After(t, k), t.cfgs(k), t.at(k), t.period);
  }

  /** For a service known since an earlier run, due means the interval less the slack has passed. */
  lemma DueWhenElapsed(s: Schedule, cfgs: seq<Config>, now: int, tick: int, id: string, interval: int)
    requires HasInterval(cfgs, id, interval) && id in s.lastRun
    ensures id in DueIds(s, cfgs, now, tick) <==> now - s.lastRun[id] >= interval - Slack(tick)
  {
    DueMeansSomeEntry(s, cfgs, now, tick, id);
    var i := ActiveEntry(cfgs, id);
    assert EntryDue(s, cfgs[i], now, tick) <==> now - s.lastRun[id] >= interval - Slack(tick);
  }

  lemma {:induction false} ActiveEntry(cfgs: seq<Config>, id: string) returns (i: nat)
    requires id in ActiveIds(cfgs)
    ensures i < |cfgs| && cfgs[i].id == id && Active(cfgs[i])
    decreases |cfgs|
  {
    var n := |cfgs| - 1;
    if cfgs[n].id == id && Active(cfgs[n]) {
      i := n;
    } else {
      i := ActiveEntry(cfgs[..n], id);
    }
  }

  /** Each tick comes less than half a period late, rounded up, and never early. */
  ghost predicate OnTime(t: Ticks) {
    forall k: nat :: 0 <= t.at(k) - k * t.period < HalfUp(t.period)
  }

  /** Half of a period, rounded up: what the slack, half of it rounded down, leaves of it. */
  function HalfUp(period: int): int { period - period / 2 }

  lemma ElapsedBetweenTicks(t: Ticks, m: nat, d: nat, n: nat)
    requires OnTime(t) && 1 <= d <= n
    ensures t.at(m + d) - t.at(m) >= n * t.period - t.period / 2 <==> d == n
  {
    assert 0 <= t.at(m) - m * t.period < HalfUp(t.period);
    assert 0 <= t.at(m + d) - (m + d) * t.period < HalfUp(t.period);
    assert (m + d) * t.period == m * t.period + d * t.period;
    if d < n {
      assert (n - d) * t.period >= t.period by {
        Scaled(n - d, t.period);
      }
      assert n * t.period == d * t.period + (n - d) * t.period;
    }
  }

  lemma Scaled(x: int, y: int)
    requires 1 <= x && 0 <= y
    ensures y <= x * y
  {
  }

  /** The last multiple of `n` up to `k`. */
  function LastTurn(k: nat, n: nat): nat
    requires n >= 1
  {
    assert k == (k / n) * n + k % n;
    k - k % n
  }

  /** A service whose interval is n ticks runs on exactly every n-th tick, for ever. */
  lemma {:induction false} RunsEveryNthTick(t: Ticks, id: string, n: nat, k: nat)
    requires 1 <= n && OnTime(t) && forall j: nat :: HasIntervalAt(t, j, id, n * t.period)
    ensures Runs(t, k, id) <==> k % n == 0
    ensures id in After(t, k + 1).lastRun && id in After(t, k + 1).cycle
    ensures After(t, k + 1).lastRun[id] == t.at(LastTurn(k, n)) && After(t, k + 1).cycle[id] == k / n + 1
  {
    assert HasIntervalAt(t, k, id, n * t.period);
    Recorded(t, k, id);
    if k > 0 {
      RunsEveryNthTick(t, id, n, k - 1);
      DueByCount(t, id, n, k, (k - 1) % n + 1);
      NextMultiple(k, n);
    }
  }

  lemma DueByCount(t: Ticks, id: string, n: nat, k: nat, d: nat)
    requires 1 <= d <= n && d <= k && OnTime(t) && HasInterval(t.cfgs(k), id, n * t.period)
    requires id in After(t, k).lastRun && After(t, k).lastRun[id] == t.at(k - d)
    ensures Runs(t, k, id) <==> d == n
  {
    assert 0 <= t.at(0) - 0 * t.period < HalfUp(t.period);
    DueWhenElapsed(After(t, k), t.cfgs(k), t.at(k), t.period, id, n * t.period);
    ElapsedBetweenTicks(t, k - d, d, n);
  }

  lemma NextMultiple(k: nat, n: nat)
    requires 1 <= n && 1 <= k
    ensures k % n == 0 <==> (k - 1) % n + 1 == n
    ensures k % n == 0 ==> k / n == (k - 1) / n + 1
    ensures k % n != 0 ==> k % n == (k - 1) % n + 1 && k / n == (k - 1) / n
  {
    var q, r := (k - 1) / n, (k - 1) % n;
    assert k == q * n + (r + 1);
    if r + 1 == n {
      assert k == (q + 1) * n;
      DivMod(k, n, q + 1, 0);
    } else {
      DivMod(k, n, q, r + 1);
    }
  }

  lemma DivMod(k: nat, n: nat, q: nat, r: nat)
    requires r < n && k == q * n + r
    ensures k / n == q && k % n == r
  {
    var q', r' := k / n, k % n;
    assert q' * n + r' == q * n + r;
    assert (q' - q) * n == r - r';
    if q' > q {
      Scaled(q' - q, n);
    } else if q > q' {
      Scaled(q - q', n);
    }
  }

  // ------------------------------------------------------------------ arbitrary tick times

  lemma {:induction false} LastRunStays(t: Ticks, id: string, m: nat, k: nat)
    requires m < k && Runs(t, m, id) && forall j :: m <= j < k ==> ActiveAt(t, j, id)
    requires forall j :: m < j < k ==> !Runs(t, j, id)
    ensures id in After(t, k).lastRun && After(t, k).lastRun[id] == t.at(m)
    decreases k - m
  {
    if k == m + 1 {
      Recorded(t, m, id);
    } else {
      LastRunStays(t, id, m, k - 1);
      NothingRecorded(t, k - 1, id);
    }
  }

  lemma NothingRecorded(t: Ticks, k: nat, id: string)
    requires ActiveAt(t, k, id) && !Runs(t, k, id)
    ensures id in After(t, k).lastRun && id in After(t, k + 1).lastRun
    ensures After(t, k + 1).lastRun[id] == After(t, k).lastRun[id]
  {
    Recorded(t, k, id);
  }

  /** Whatever the tick times, two successive runs of a service that stays active are never closer than
      its interval less half a tick. */
  lemma SuccessiveRunsAreApart(t: Ticks, id: string, interval: int, m: nat, k: nat)
    requires m < k && Runs(t, m, id) && Runs(t, k, id) && forall j :: m < j < k ==> !Runs(t, j, id)
    requires forall j :: m <= j < k ==> ActiveAt(t, j, id)
    requires HasInterval(t.cfgs(k), id, interval)
    ensures t.at(k) - t.at(m) >= interval - (if t.period > 0 then t.period else 10_000_000_000) / 2
  {
    LastRunStays(t, id, m, k);
    DueWhenElapsed(After(t, k), t.cfgs(k), t.at(k), t.period, id, interval);
  }

  /** Ticks on time but for one, which is half a period late, for one service of n ticks. */
  function OneLate(period: int, n: nat): Ticks {
    Ticks((k: nat) => [Config("s", None, n * period)],
          (k: nat) => k * period + if k == n - 1 then HalfUp(period) else 0,
          period)
  }

  /** Tick `k` is too soon after the first for a service to run again. */
  predicate TooSoon(t: Ticks, k: nat, interval: int) { t.at(k) - t.at(0) < interval - Slack(t.period) }

  /** Nothing runs again while it is too soon. */
  lemma {:induction false} QuietWhileTooSoon(t: Ticks, id: string, interval: int, k: nat)
    requires k >= 1 && forall j: nat :: j < k ==> HasIntervalAt(t, j, id, interval)
    requires forall j: nat :: 0 < j < k ==> TooSoon(t, j, interval)
    ensures id in After(t, k).lastRun && After(t, k).lastRun[id] == t.at(0)
    decreases k
  {
    assert HasIntervalAt(t, k - 1, id, interval);
    Recorded(t, k - 1, id);
    if k > 1 {
      QuietWhileTooSoon(t, id, interval, k - 1);
      DueWhenElapsed(After(t, k - 1), t.cfgs(k - 1), t.at(k - 1), t.period, id, interval);
      assert TooSoon(t, k - 1, interval);
    }
  }

  lemma OneLateTimes(period: int, n: nat)
    requires period > 0 && n >= 2
    ensures var t := OneLate(period, n);
            && (forall j: nat :: 0 < j < n - 1 ==> TooSoon(t, j, n * period)) && !TooSoon(t, n - 1, n * period)
            && (forall k: nat :: 0 <= t.at(k) - k * period <= HalfUp(period))
  {
    var t := OneLate(period, n);
    forall j: nat | 0 < j < n - 1
      ensures TooSoon(t, j, n * period)
    {
      Scaled(n - 1 - j, period);
      assert n * period == j * period + (n - 1 - j) * period + period;
    }
    assert t.at(0) == 0 && t.at(n - 1) == (n - 1) * period + HalfUp(period);
    assert n * period == (n - 1) * period + period;
  }

  /** The bound on lateness is tight, for every period and every interval of more than one tick: one
      tick half a period late, rounded up, and the service runs a tick early. */
  lemma HalfATickLateRunsEarly(period: int, n: nat)
    requires period > 0 && n >= 2
    ensures var t := OneLate(period, n);
            && t.period == period
            && (forall k: nat :: 0 <= t.at(k) - k * period <= HalfUp(period))
            && (forall k: nat :: HasIntervalAt(t, k, "s", n * period))
            && Runs(t, n - 1, "s")
  {
    var t := OneLate(period, n);
    forall k: nat
      ensures HasIntervalAt(t, k, "s", n * period)
    {
    }
    OneLateTimes(period, n);
    RunsOnceNotTooSoon(t, "s", n * period, n - 1);
  }

  lemma RunsOnceNotTooSoon(t: Ticks, id: string, interval: int, k: nat)
    requires k >= 1 && (forall j: nat :: HasIntervalAt(t, j, id, interval))
    requires (forall j: nat :: 0 < j < k ==> TooSoon(t, j, interval)) && !TooSoon(t, k, interval)
    ensures Runs(t, k, id)
  {
    QuietWhileTooSoon(t, id, interval, k);
    assert HasIntervalAt(t, k, id, interval);
    DueWhenElapsed(After(t, k), t.cfgs(k), t.at(k), t.period, id, interval);
  }

  /** Entry `f` is the first active one of its service. */
  ghost predicate FirstActive(cfgs: seq<Config>, f: nat) {
    f < |cfgs| && SwitchedOn(cfgs[f]) && forall j :: 0 <= j < f && SwitchedOn(cfgs[j]) ==> cfgs[j].id != cfgs[f].id
  }

  /** The first active entry of a service decides, whatever the schedule and the time. */
  ghost predicate FirstDecides(cfgs: seq<Config>, f: nat, tick: int)
    requires f < |cfgs|
  {
    forall s, now :: Consistent(s) ==>
      (cfgs[f].id in DueIds(s, cfgs, now, tick) <==> !StillEarly(s, cfgs[f].id, Asked(cfgs[f]), now, tick))
  }

  /** No later active entry of the service asks for a shorter interval. */
  ghost predicate FirstIsShortest(cfgs: seq<Config>, f: nat)
    requires f < |cfgs|
  {
    forall j :: f < j < |cfgs| && SwitchedOn(cfgs[j]) && cfgs[j].id == cfgs[f].id ==> Asked(cfgs[f]) <= Asked(cfgs[j])
  }

  /** The comment that a service's first entry decides holds of exactly those configurations in which no
      later entry of the service has a shorter interval. */
  lemma FirstEntryDecidesIff(cfgs: seq<Config>, f: nat, tick: int)
    requires FirstActive(cfgs, f)
    ensures FirstDecides(cfgs, f, tick) <==> FirstIsShortest(cfgs, f)
  {
    var id := cfgs[f].id;
    if FirstIsShortest(cfgs, f) {
      forall s, now | Consistent(s)
        ensures id in DueIds(s, cfgs, now, tick) <==> !StillEarly(s, id, Asked(cfgs[f]), now, tick)
      {
        DueMeansSomeEntry(s, cfgs, now, tick, id);
      }
    } else {
      var j :| f < j < |cfgs| && SwitchedOn(cfgs[j]) && cfgs[j].id == id && Asked(cfgs[j]) < Asked(cfgs[f]);
      var s, now := Schedule(map[id := 0], map[id := 1]), Asked(cfgs[j]) - (if tick > 0 then tick else 10_000_000_000) / 2;
      DueMeansSomeEntry(s, cfgs, now, tick, id);
      assert Consistent(s) && !StillEarly(s, id, Asked(cfgs[j]), now, tick) && StillEarly(s, id, Asked(cfgs[f]), now, tick);
    }
  }

  // ------------------------------------------------------------------ the tick period

  /** MinCheckInterval: the smallest interval of any active entry, so that no service asks to run more
      often than the loop ticks. */
  method MinCheckInterval(cfgs: seq<Config>) returns (tick: int)
    ensures 0 < tick
    ensures forall i :: 0 <= i < |cfgs| && SwitchedOn(cfgs[i]) ==> tick <= Asked(cfgs[i])
    ensures if exists i :: 0 <= i < |cfgs| && SwitchedOn(cfgs[i])
            then exists i :: 0 <= i < |cfgs| && SwitchedOn(cfgs[i]) && Asked(cfgs[i]) == tick
            else tick == 10_000_000_000
  {
    var least := 0;
    for i := 0 to |cfgs|
      invariant 0 <= least
      invariant least == 0 <==> forall j :: 0 <= j < i ==> !SwitchedOn(cfgs[j])
      invariant forall j :: 0 <= j < i && SwitchedOn(cfgs[j]) ==> least <= Asked(cfgs[j])
      invariant least != 0 ==> exists j :: 0 <= j < i && SwitchedOn(cfgs[j]) && Asked(cfgs[j]) == least
    {
      if Active(cfgs[i]) && (least == 0 || Interval(cfgs[i]) < least) {
        least := Interval(cfgs[i]);
      }
    }
    tick := if least <= 0 then DEFAULT_INTERVAL else least;
  }
}

/**
 The cardinality guard of one metric (metrics/cardinality_guard.go): a bounded set of admitted label
 tuples with two-generation CLOCK eviction, kept in step with the series live in the registry.

 An observation is "allow, then record the series" taken as one step. Generations are 32-bit and
 wrap. The tuple hash is arbitrary; a collision is met when the hash of an observed tuple belongs to
 a different admitted tuple.
 */
module CardinalityGuard {
  import opened Prelude

  type Labels = seq<string>

  const GENERATIONS: nat := 0x1_0000_0000

  datatype Config = Config(limit: int, evictAfter: int, deletes: bool, hash: Labels -> nat)

  datatype Slot = Slot(lastGen: nat, labels: Labels)

  datatype Guard = Guard(
    seen: map<nat, Slot>,
    count: int,
    gen: nat,
    nextSweep: Option<int>,
    registry: set<Labels>)

  const EMPTY: Guard := Guard(map[], 0, 0, None, {})

  /** The 32-bit successor and predecessor of a generation. */
  function Next(gen: nat): nat { if gen + 1 == GENERATIONS then 0 else gen + 1 }

  function Previous(gen: nat): nat { if gen == 0 then GENERATIONS - 1 else gen - 1 }

  /** Eviction needs a window and a way to delete the series it would orphan. */
  predicate Evicts(c: Config) { c.evictAfter > 0 && c.deletes }

  function Live(seen: map<nat, Slot>, gen: nat): map<nat, Slot> {
    map h | h in seen && seen[h].lastGen == gen :: seen[h]
  }

  function LabelsOf(seen: map<nat, Slot>): set<Labels> { set h | h in seen :: seen[h].labels }

  function IdleLabels(seen: map<nat, Slot>, gen: nat): set<Labels> {
    set h | h in seen && seen[h].lastGen != gen :: seen[h].labels
  }

  /** Whether sweepLocked really sweeps, rather than returning or only arming its timer. */
  predicate Sweeps(c: Config, g: Guard, force: bool, now: int) {
    Evicts(c) && (force || (g.nextSweep.Some? && g.nextSweep.value <= now))
  }

  function Swept(c: Config, g: Guard, force: bool, now: int): Guard {
    if Sweeps(c, g, force, now) then
      var kept := Live(g.seen, g.gen);
      Guard(kept, g.count - (|g.seen| - |kept|), Next(g.gen), Some(now + c.evictAfter),
            g.registry - IdleLabels(g.seen, g.gen))
    else if Evicts(c) && g.nextSweep.None? then g.(nextSweep := Some(now + c.evictAfter))
    else g
  }

  predicate Known(c: Config, g: Guard, labels: Labels) { c.hash(labels) in g.seen }

  predicate Admits(c: Config, g: Guard, labels: Labels, now: int) {
    Known(c, g, labels) || Swept(c, g, false, now).count < c.limit
  }

  function Stamped(c: Config, g: Guard, labels: Labels, stored: Labels): Guard {
    g.(seen := g.seen[c.hash(labels) := Slot(g.gen, stored)], registry := g.registry + {labels})
  }

  /** allow followed, when it admits, by the recording of the series. */
  function Observed(c: Config, g: Guard, labels: Labels, now: int): Guard {
    if Known(c, g, labels) then Stamped(c, g, labels, g.seen[c.hash(labels)].labels)
    else
      var s := Swept(c, g, false, now);
      if s.count >= c.limit then s
      else Stamped(c, s, labels, labels).(count := s.count + 1)
  }

  // ------------------------------------------------------------------ what happened, in order

  datatype Event = Seen(labels: Labels, at: int) | Sweep(at: int)

  datatype Cmd = Observe(labels: Labels, at: int) | Janitor(force: bool, at: int)

  function SweepEvents(c: Config, g: Guard, force: bool, now: int): seq<Event> {
    if Sweeps(c, g, force, now) then [Sweep(now)] else []
  }

  /** The admitted observations and real sweeps one command brings about. */
  function Events(c: Config, g: Guard, cmd: Cmd): seq<Event> {
    match cmd
    case Janitor(force, at) => SweepEvents(c, g, force, at)
    case Observe(labels, at) =>
      if Known(c, g, labels) then [Seen(labels, at)]
      else SweepEvents(c, g, false, at) + if Admits(c, g, labels, at) then [Seen(labels, at)] else []
  }

  function After(c: Config, g: Guard, cmd: Cmd): Guard {
    match cmd
    case Janitor(force, at) => Swept(c, g, force, at)
    case Observe(labels, at) => Observed(c, g, labels, at)
  }

  predicate Collides(c: Config, g: Guard, cmd: Cmd) {
    cmd.Observe? && Known(c, g, cmd.labels) && g.seen[c.hash(cmd.labels)].labels != cmd.labels
  }

  /** A run without collisions whose clock does not go backwards, from state and log to state and log. */
  ghost predicate Runs(c: Config, g: Guard, log: seq<Event>, cmds: seq<Cmd>, g': Guard, log': seq<Event>)
    decreases |cmds|
  {
    if cmds == [] then g == g' && log == log'
    else
      && !Collides(c, g, cmds[0])
      && (forall i :: 0 <= i < |log| ==> log[i].at <= cmds[0].at)
      && Runs(c, After(c, g, cmds[0]), log + Events(c, g, cmds[0]), cmds[1..], g', log')
  }

  ghost predicate Reachable(c: Config, g: Guard, log: seq<Event>) {
    exists cmds :: Runs(c, EMPTY, [], cmds, g, log)
  }

  /** How many sweeps have run since the tuple was last observed. */
  function Age(log: seq<Event>, labels: Labels): Option<nat> {
    if log == [] then None
    else
      var past, e := log[..|log| - 1], log[|log| - 1];
      if e.Seen? then if e.labels == labels then Some(0) else Age(past, labels)
      else
        match Age(past, labels)
        case None => None
        case Some(n) => Some(n + 1)
  }

  predicate Fresh(log: seq<Event>, labels: Labels) {
    Age(log, labels).Some? && Age(log, labels).value <= 1
  }

  /** The generation stamp of an admitted tuple, given how many sweeps ago it was last observed. */
  function StampAt(gen: nat, age: nat): nat { if age == 0 then gen else Previous(gen) }

  // ------------------------------------------------------------------ the invariant of every run

  ghost predicate SlotInv(c: Config, g: Guard, log: seq<Event>, h: nat)
    requires h in g.seen
  {
    var s := g.seen[h];
    c.hash(s.labels) == h && Fresh(log, s.labels) && s.lastGen == StampAt(g.gen, Age(log, s.labels).value)
  }

  ghost predicate SlotsInv(c: Config, g: Guard, log: seq<Event>) {
    g.gen < GENERATIONS && forall h :: h in g.seen ==> SlotInv(c, g, log, h)
  }

  ghost predicate Holds(c: Config, g: Guard, labels: Labels) {
    c.hash(labels) in g.seen && g.seen[c.hash(labels)].labels == labels
  }

  ghost predicate FreshInv(c: Config, g: Guard, log: seq<Event>) {
    forall labels :: Fresh(log, labels) ==> Holds(c, g, labels)
  }

  ghost predicate SizeInv(c: Config, g: Guard) {
    g.count == |g.seen| <= Max(0, c.limit) && g.registry == LabelsOf(g.seen)
  }

  ghost predicate Inv(c: Config, g: Guard, log: seq<Event>) {
    SlotsInv(c, g, log) && FreshInv(c, g, log) && SizeInv(c, g)
  }

  lemma AgeAfterSeen(log: seq<Event>, e: Event, labels: Labels)
    requires e.Seen?
    ensures Age(log + [e], labels) == if e.labels == labels then Some(0) else Age(log, labels)
  {
    assert (log + [e])[..|log|] == log;
  }

  lemma AgeAfterSweep(log: seq<Event>, at: int, labels: Labels)
    ensures Age(log + [Sweep(at)], labels) == match Age(log, labels) case None => None case Some(n) => Some(n + 1)
  {
    assert (log + [Sweep(at)])[..|log|] == log;
  }

  lemma SweepKeepsFresh(c: Config, g: Guard, log: seq<Event>, force: bool, now: int)
    requires SlotsInv(c, g, log) && FreshInv(c, g, log) && Sweeps(c, g, force, now)
    ensures FreshInv(c, Swept(c, g, force, now), log + [Sweep(now)])
  {
    var g', log' := Swept(c, g, force, now), log + [Sweep(now)];
    forall labels | Fresh(log', labels)
      ensures Holds(c, g', labels)
    {
      AgeAfterSweep(log, now, labels);
      assert Fresh(log, labels) && Holds(c, g, labels);
      assert SlotInv(c, g, log, c.hash(labels));
    }
  }

  lemma SweepPreservesInv(c: Config, g: Guard, log: seq<Event>, force: bool, now: int)
    requires Inv(c, g, log)
    ensures Inv(c, Swept(c, g, force, now), log + SweepEvents(c, g, force, now))
  {
    if Sweeps(c, g, force, now) {
      SweepKeepsFresh(c, g, log, force, now);
      RegistryAfterSweep(c, g, log);
    } else {
      assert log + [] == log;
      var g' := Swept(c, g, force, now);
      assert SlotsInv(c, g', log) by {
        forall h | h in g'.seen
          ensures SlotInv(c, g', log, h)
        {
          assert SlotInv(c, g, log, h);
        }
      }
    }
  }

  lemma RegistryAfterSweep(c: Config, g: Guard, log: seq<Event>)
    requires SlotsInv(c, g, log)
    ensures LabelsOf(g.seen) - IdleLabels(g.seen, g.gen) == LabelsOf(Live(g.seen, g.gen))
    ensures |Live(g.seen, g.gen)| <= |g.seen|
  {
    var kept := Live(g.seen, g.gen);
    forall h, h' | h in g.seen && h' in g.seen && g.seen[h].labels == g.seen[h'].labels
      ensures h == h'
    {
      assert SlotInv(c, g, log, h) && SlotInv(c, g, log, h');
    }
    forall x
      ensures x in LabelsOf(kept) <==> x in LabelsOf(g.seen) && x !in IdleLabels(g.seen, g.gen)
    {
      if x in LabelsOf(g.seen) {
        var h :| h in g.seen && g.seen[h].labels == x;
        assert g.seen[h].lastGen == g.gen ==> h in kept;
      }
    }
    assert kept.Keys <= g.seen.Keys;
    CardinalityOfSubset(kept.Keys, g.seen.Keys);
  }

  lemma {:induction false} CardinalityOfSubset(a: set<nat>, b: set<nat>)
    requires a <= b
    ensures |a| <= |b|
  {
    if a != {} {
      var x :| x in a;
      CardinalityOfSubset(a - {x}, b - {x});
    }
  }

  /** The state after one admitted observation, known or novel. */
  function Admitted(c: Config, g: Guard, labels: Labels): Guard {
    Stamped(c, g, labels, labels).(count := if Known(c, g, labels) then g.count else g.count + 1)
  }

  lemma StampKeepsFresh(c: Config, g: Guard, log: seq<Event>, labels: Labels, now: int)
    requires FreshInv(c, g, log) && (Known(c, g, labels) ==> Holds(c, g, labels))
    ensures FreshInv(c, Admitted(c, g, labels), log + [Seen(labels, now)])
  {
    var g', log' := Admitted(c, g, labels), log + [Seen(labels, now)];
    forall other | Fresh(log', other)
      ensures Holds(c, g', other)
    {
      AgeAfterSeen(log, Seen(labels, now), other);
      assert other == labels || Holds(c, g, other);
    }
  }

  lemma StampKeepsSize(c: Config, g: Guard, labels: Labels)
    requires SizeInv(c, g) && (if Known(c, g, labels) then Holds(c, g, labels) else g.count < c.limit)
    ensures SizeInv(c, Admitted(c, g, labels))
  {
    var g', h := Admitted(c, g, labels), c.hash(labels);
    assert g'.seen.Keys == g.seen.Keys + {h};
    assert g'.seen[h].labels == labels;
    assert forall k :: k in g.seen ==> g'.seen[k].labels == g.seen[k].labels;
    assert LabelsOf(g'.seen) == LabelsOf(g.seen) + {labels};
  }

  lemma StampPreservesInv(c: Config, g: Guard, log: seq<Event>, labels: Labels, now: int)
    requires Inv(c, g, log) && (if Known(c, g, labels) then Holds(c, g, labels) else g.count < c.limit)
    ensures Inv(c, Admitted(c, g, labels), log + [Seen(labels, now)])
  {
    StampKeepsFresh(c, g, log, labels, now);
    StampKeepsSize(c, g, labels);
  }

  lemma StepPreservesInv(c: Config, g: Guard, log: seq<Event>, cmd: Cmd)
    requires Inv(c, g, log) && !Collides(c, g, cmd)
    ensures Inv(c, After(c, g, cmd), log + Events(c, g, cmd))
  {
    match cmd
    case Janitor(force, at) =>
      SweepPreservesInv(c, g, log, force, at);
    case Observe(labels, at) =>
      if Known(c, g, labels) {
        StampPreservesInv(c, g, log, labels, at);
      } else {
        SweepPreservesInv(c, g, log, false, at);
        var s, swept := Swept(c, g, false, at), log + SweepEvents(c, g, false, at);
        if s.count < c.limit {
          StampPreservesInv(c, s, swept, labels, at);
          assert swept + [Seen(labels, at)] == log + (SweepEvents(c, g, false, at) + [Seen(labels, at)]);
        } else {
          assert swept == log + (SweepEvents(c, g, false, at) + []);
        }
      }
  }

  lemma {:induction false} RunPreservesInv(c: Config, g: Guard, log: seq<Event>, cmds: seq<Cmd>, g': Guard, log': seq<Event>)
    requires Inv(c, g, log) && Runs(c, g, log, cmds, g', log')
    ensures Inv(c, g', log')
    decreases |cmds|
  {
    if cmds != [] {
      StepPreservesInv(c, g, log, cmds[0]);
      RunPreservesInv(c, After(c, g, cmds[0]), log + Events(c, g, cmds[0]), cmds[1..], g', log');
    }
  }

  lemma ReachableInv(c: Config, g: Guard, log: seq<Event>)
    requires Reachable(c, g, log)
    ensures Inv(c, g, log)
  {
    var cmds :| Runs(c, EMPTY, [], cmds, g, log);
    RunPreservesInv(c, EMPTY, [], cmds, g, log);
  }

  // ------------------------------------------------------------------ what holds in every run

  /** The count is the number of admitted tuples and stays under the limit; the series live in the
      registry are exactly the admitted tuples, so they stay under the limit too; and a tuple is live
      exactly when at most one sweep has run since it was last observed. */
  lemma LiveSeriesAreTheRecentTuples(c: Config, g: Guard, log: seq<Event>)
    requires Reachable(c, g, log)
    ensures g.count == |g.seen| <= Max(0, c.limit)
    ensures g.registry == LabelsOf(g.seen) && |g.registry| <= Max(0, c.limit)
    ensures forall labels :: labels in g.registry <==> Fresh(log, labels)
  {
    ReachableInv(c, g, log);
    CountIsFreshTuples(c, g, log);
    forall labels
      ensures labels in g.registry <==> Fresh(log, labels)
    {
      FreshTuplesAreAll(log, labels);
    }
  }

  // ------------------------------------------------------------------ who is admitted

  /** The tuples observed and not idle for two sweeps, by the log alone. */
  ghost function FreshTuples(log: seq<Event>): set<Labels> {
    set e | e in log && e.Seen? && Fresh(log, e.labels) :: e.labels
  }

  lemma FreshTuplesAreAll(log: seq<Event>, labels: Labels)
    ensures labels in FreshTuples(log) <==> Fresh(log, labels)
  {
    if Fresh(log, labels) {
      var i := LastSeen(log, labels);
      assert log[i] in log;
    }
  }

  lemma {:induction false} LabelsCounted(hash: Labels -> nat, seen: map<nat, Slot>)
    requires forall h :: h in seen ==> hash(seen[h].labels) == h
    ensures |LabelsOf(seen)| == |seen|
    decreases |seen|
  {
    if seen.Keys != {} {
      var h :| h in seen;
      var rest := seen - {h};
      assert rest.Keys == seen.Keys - {h};
      LabelsCounted(hash, rest);
      assert forall k :: k in seen ==> k == h || (k in rest && rest[k] == seen[k]);
      assert forall k :: k in rest ==> k in seen && rest[k] == seen[k];
      assert LabelsOf(seen) == LabelsOf(rest) + {seen[h].labels};
      assert forall k :: k in rest ==> hash(rest[k].labels) == k != h;
      assert seen[h].labels !in LabelsOf(rest);
    } else {
      assert LabelsOf(seen) == {};
    }
  }

  /** The count is the number of fresh tuples. */
  lemma CountIsFreshTuples(c: Config, g: Guard, log: seq<Event>)
    requires Inv(c, g, log)
    ensures g.registry == FreshTuples(log) && g.count == |FreshTuples(log)|
  {
    forall labels
      ensures labels in LabelsOf(g.seen) <==> labels in FreshTuples(log)
    {
      FreshTuplesAreAll(log, labels);
      if labels in LabelsOf(g.seen) {
        var h :| h in g.seen && g.seen[h].labels == labels;
        assert SlotInv(c, g, log, h);
      }
      if Fresh(log, labels) {
        assert Holds(c, g, labels);
      }
    }
    assert LabelsOf(g.seen) == FreshTuples(log);
    forall h | h in g.seen
      ensures c.hash(g.seen[h].labels) == h
    {
      assert SlotInv(c, g, log, h);
    }
    LabelsCounted(c.hash, g.seen);
  }

  /** A tuple is admitted exactly when it is still fresh, or when the fresh tuples left by the sweep its
      arrival may trigger are fewer than the limit. */
  lemma AdmittedIffFreshOrRoom(c: Config, g: Guard, log: seq<Event>, labels: Labels, at: int)
    requires Inv(c, g, log) && !Collides(c, g, Observe(labels, at))
    ensures Admits(c, g, labels, at)
            <==> Fresh(log, labels) || |FreshTuples(log + SweepEvents(c, g, false, at))| < c.limit
    ensures Admits(c, g, labels, at) <==> labels in After(c, g, Observe(labels, at)).registry
  {
    if Fresh(log, labels) {
      assert Holds(c, g, labels);
    }
    if Known(c, g, labels) {
      assert SlotInv(c, g, log, c.hash(labels));
    } else {
      SweepPreservesInv(c, g, log, false, at);
      CountIsFreshTuples(c, Swept(c, g, false, at), log + SweepEvents(c, g, false, at));
      NotListed(c, Swept(c, g, false, at), log + SweepEvents(c, g, false, at), labels);
    }
  }

  lemma NotListed(c: Config, g: Guard, log: seq<Event>, labels: Labels)
    requires Inv(c, g, log) && !Known(c, g, labels)
    ensures labels !in g.registry
  {
    CountIsFreshTuples(c, g, log);
    FreshTuplesAreAll(log, labels);
  }

  /** Without an eviction window, or without a way to delete a series, nothing is ever evicted. */
  lemma NothingEvictedUnlessDeletable(c: Config, g: Guard, cmd: Cmd)
    requires c.evictAfter <= 0 || !c.deletes
    ensures g.registry <= After(c, g, cmd).registry && forall at :: Sweep(at) !in Events(c, g, cmd)
  {
  }

  /** Every stamp is the current generation or the one before it, modulo 2^32, and the equality test
      is exact across the wrap: a stamp is current exactly when no sweep ran since the tuple was seen. */
  lemma StampsSurviveWraparound(c: Config, g: Guard, log: seq<Event>, h: nat)
    requires Reachable(c, g, log) && h in g.seen
    ensures g.seen[h].lastGen == g.gen || g.seen[h].lastGen == Previous(g.gen)
    ensures g.seen[h].lastGen == g.gen <==> Age(log, g.seen[h].labels) == Some(0)
  {
    ReachableInv(c, g, log);
    assert SlotInv(c, g, log, h);
  }

  lemma {:induction false} AgeSpansSweeps(a: seq<Event>, b: seq<Event>, labels: Labels)
    requires forall i :: 0 <= i < |b| && b[i].Seen? ==> b[i].labels != labels
    ensures Age(a, labels).None? ==> Age(a + b, labels).None?
    ensures Age(a, labels).Some? ==> Age(a + b, labels).Some? && Age(a, labels).value <= Age(a + b, labels).value
    decreases |b|
  {
    if b == [] {
      assert a + b == a;
    } else {
      var n := |b| - 1;
      AgeSpansSweeps(a, b[..n], labels);
      assert (a + b)[..|a + b| - 1] == a + b[..n];
    }
  }

  /** A tuple unobserved between two sweeps is gone after the second, and stays gone until observed. */
  lemma UnobservedBetweenSweepsIsGone(c: Config, g: Guard, a: seq<Event>, t1: int, b: seq<Event>, t2: int,
                                      rest: seq<Event>, labels: Labels)
    requires Reachable(c, g, a + [Sweep(t1)] + b + [Sweep(t2)] + rest)
    requires forall i :: 0 <= i < |b| && b[i].Seen? ==> b[i].labels != labels
    requires forall i :: 0 <= i < |rest| && rest[i].Seen? ==> rest[i].labels != labels
    ensures labels !in g.registry && forall h :: h in g.seen ==> g.seen[h].labels != labels
  {
    LiveSeriesAreTheRecentTuples(c, g, a + [Sweep(t1)] + b + [Sweep(t2)] + rest);
    AgeAfterSweep(a, t1, labels);
    AgeSpansSweeps(a + [Sweep(t1)], b, labels);
    AgeAfterSweep(a + [Sweep(t1)] + b, t2, labels);
    AgeSpansSweeps(a + [Sweep(t1)] + b + [Sweep(t2)], rest, labels);
  }

  // ------------------------------------------------------------------ eviction age

  ghost predicate TimeInv(c: Config, g: Guard, log: seq<Event>) {
    && (forall i, j :: 0 <= i < j < |log| ==> log[i].at <= log[j].at)
    && (forall i :: 0 <= i < |log| && log[i].Sweep? ==>
          g.nextSweep.Some? && log[i].at + c.evictAfter <= g.nextSweep.value)
  }

  lemma SweepKeepsTime(c: Config, g: Guard, log: seq<Event>, force: bool, now: int)
    requires TimeInv(c, g, log) && forall i :: 0 <= i < |log| ==> log[i].at <= now
    ensures TimeInv(c, Swept(c, g, force, now), log + SweepEvents(c, g, force, now))
  {
  }

  lemma {:induction false} RunKeepsTime(c: Config, g: Guard, log: seq<Event>, cmds: seq<Cmd>, g': Guard, log': seq<Event>)
    requires TimeInv(c, g, log) && Runs(c, g, log, cmds, g', log')
    ensures TimeInv(c, g', log')
    decreases |cmds|
  {
    if cmds != [] {
      RunKeepsTime(c, After(c, g, cmds[0]), log + Events(c, g, cmds[0]), cmds[1..], g', log');
    }
  }

  /** A tuple of positive age has a sweep after every one of its observations. */
  lemma {:induction false} SweepAfterObservations(log: seq<Event>, labels: Labels) returns (j: nat)
    requires Age(log, labels).Some? && Age(log, labels).value > 0
    ensures j < |log| && log[j].Sweep?
    ensures forall i :: 0 <= i < |log| && log[i].Seen? && log[i].labels == labels ==> i < j
  {
    var n := |log| - 1;
    if log[n].Sweep? {
      j := n;
    } else {
      j := SweepAfterObservations(log[..n], labels);
      assert forall i :: 0 <= i < n ==> log[i] == log[..n][i];
    }
  }

  lemma IdleForAWindow(c: Config, g: Guard, log: seq<Event>, now: int, labels: Labels, i: nat)
    requires TimeInv(c, g, log) && g.nextSweep.Some? && g.nextSweep.value <= now
    requires Age(log, labels).Some? && Age(log, labels).value > 0
    requires i < |log| && log[i].Seen? && log[i].labels == labels
    ensures log[i].at + c.evictAfter <= now
  {
    var j := SweepAfterObservations(log, labels);
    assert log[i].at <= log[j].at;
  }

  /** A sweep nobody forced evicts only tuples unobserved for at least evictAfter. */
  lemma EvictedOnlyAfterIdleWindow(c: Config, g: Guard, log: seq<Event>, now: int, labels: Labels, i: nat)
    requires Reachable(c, g, log)
    requires labels in g.registry && labels !in Swept(c, g, false, now).registry
    requires i < |log| && log[i].Seen? && log[i].labels == labels
    ensures log[i].at + c.evictAfter <= now
  {
    var cmds :| Runs(c, EMPTY, [], cmds, g, log);
    RunKeepsTime(c, EMPTY, [], cmds, g, log);
    ReachableInv(c, g, log);
    IdleForAWindow(c, g, log, now, labels, i);
  }

  // ------------------------------------------------------------------ how long an idle series lives

  /** A sweep follows event `i` within `gap`. */
  ghost predicate SweptSoon(log: seq<Event>, i: nat, gap: int)
    requires i < |log|
  {
    exists j :: i < j < |log| && log[j].Sweep? && log[j].at <= log[i].at + gap
  }

  /** By `now` every event older than `gap` was followed by a sweep within `gap`. */
  ghost predicate SweptInTime(log: seq<Event>, now: int, gap: int) {
    forall i :: 0 <= i < |log| && log[i].at + gap < now ==> SweptSoon(log, i, gap)
  }

  lemma {:induction false} LastSeen(log: seq<Event>, labels: Labels) returns (i: nat)
    requires Age(log, labels).Some?
    ensures i < |log| && log[i].Seen? && log[i].labels == labels
    ensures forall k :: i < k < |log| && log[k].Seen? ==> log[k].labels != labels
  {
    var n := |log| - 1;
    if log[n].Seen? && log[n].labels == labels {
      i := n;
    } else {
      i := LastSeen(log[..n], labels);
      assert forall k :: 0 <= k < n ==> log[k] == log[..n][k];
    }
  }

  /** When sweeps come at most `gap` apart, every live series was observed within the last two gaps. */
  lemma LiveMeansRecentlySeen(c: Config, g: Guard, log: seq<Event>, now: int, gap: nat, labels: Labels) returns (i: nat)
    requires Reachable(c, g, log) && SweptInTime(log, now, gap) && labels in g.registry
    ensures i < |log| && log[i].Seen? && log[i].labels == labels && now <= log[i].at + 2 * gap
  {
    assert Fresh(log, labels) by {
      LiveSeriesAreTheRecentTuples(c, g, log);
    }
    i := LastSeen(log, labels);
    if log[i].at + 2 * gap < now {
      var j :| i < j < |log| && log[j].Sweep? && log[j].at <= log[i].at + gap;
      var k :| j < k < |log| && log[k].Sweep? && log[k].at <= log[j].at + gap;
      GoneAfterTwoSweeps(c, g, log, i, j, k, labels);
    }
  }

  lemma CutAtSweeps(log: seq<Event>, j: nat, k: nat)
    requires j < k < |log| && log[j].Sweep? && log[k].Sweep?
    ensures log == log[..j] + [Sweep(log[j].at)] + log[j + 1..k] + [Sweep(log[k].at)] + log[k + 1..]
  {
  }

  lemma GoneAfterTwoSweeps(c: Config, g: Guard, log: seq<Event>, i: nat, j: nat, k: nat, labels: Labels)
    requires Reachable(c, g, log) && i < j < k < |log| && log[j].Sweep? && log[k].Sweep?
    requires forall m :: i < m < |log| && log[m].Seen? ==> log[m].labels != labels
    ensures labels !in g.registry
  {
    CutAtSweeps(log, j, k);
    UnobservedBetweenSweepsIsGone(c, g, log[..j], log[j].at, log[j + 1..k], log[k].at, log[k + 1..], labels);
  }

  /** When the janitor last called, and when anything last happened. */
  datatype Watch = Watch(janitor: int, clock: int)

  function Watched(w: Watch, cmd: Cmd): Watch { Watch(if cmd.Janitor? then cmd.at else w.janitor, cmd.at) }

  /** No more than `tick` passes between one call of the janitor and the next. */
  predicate OnWatch(w: Watch, tick: nat, now: int) { w.clock <= now <= w.janitor + tick }

  /** A run without collisions during which the janitor keeps calling. */
  ghost predicate WatchedRuns(c: Config, tick: nat, g: Guard, log: seq<Event>, w: Watch, cmds: seq<Cmd>,
                              g': Guard, log': seq<Event>, w': Watch)
    decreases |cmds|
  {
    if cmds == [] then g == g' && log == log' && w == w'
    else
      && !Collides(c, g, cmds[0]) && OnWatch(w, tick, cmds[0].at)
      && WatchedRuns(c, tick, After(c, g, cmds[0]), log + Events(c, g, cmds[0]), Watched(w, cmds[0]), cmds[1..], g', log', w')
  }

  /** The timer is armed for an eviction window after the oldest event no sweep has followed, at the
      latest, and beyond the janitor's last call; sweeps have followed events within `after + tick`. */
  ghost predicate WatchInv(after: int, tick: nat, timer: Option<int>, log: seq<Event>, w: Watch) {
    && w.janitor <= w.clock && (log != [] ==> timer.Some?)
    && (timer.Some? ==> w.janitor < timer.value <= w.clock + after)
    && (forall i :: 0 <= i < |log| ==> log[i].at <= w.clock)
    && (forall i :: 0 <= i < |log| ==>
          SweptSoon(log, i, after + tick) || (timer.Some? && timer.value <= log[i].at + after))
  }

  lemma SweptStays(log: seq<Event>, e: Event, gap: int)
    ensures forall i :: 0 <= i < |log| && SweptSoon(log, i, gap) ==> SweptSoon(log + [e], i, gap)
  {
    forall i | 0 <= i < |log| && SweptSoon(log, i, gap)
      ensures SweptSoon(log + [e], i, gap)
    {
      var j :| i < j < |log| && log[j].Sweep? && log[j].at <= log[i].at + gap;
      assert (log + [e])[j] == log[j];
    }
  }

  lemma WatchSeesSweep(after: int, tick: nat, timer: Option<int>, log: seq<Event>, w: Watch, at: int, janitor: bool)
    requires after > 0 && WatchInv(after, tick, timer, log, w) && OnWatch(w, tick, at)
    ensures WatchInv(after, tick, Some(at + after), log + [Sweep(at)], Watch(if janitor then at else w.janitor, at))
  {
    var log', gap := log + [Sweep(at)], after + tick;
    SweptStays(log, Sweep(at), gap);
    forall i | 0 <= i < |log|
      ensures SweptSoon(log', i, gap)
    {
      assert log'[|log|] == Sweep(at);
    }
  }

  lemma WatchSeesTuple(after: int, tick: nat, timer: Option<int>, log: seq<Event>, w: Watch, labels: Labels, at: int)
    requires after > 0 && WatchInv(after, tick, timer, log, w) && timer.Some? && w.clock <= at
    ensures WatchInv(after, tick, timer, log + [Seen(labels, at)], w.(clock := at))
  {
    SweptStays(log, Seen(labels, at), after + tick);
  }

  lemma WatchSeesCall(c: Config, tick: nat, g: Guard, log: seq<Event>, w: Watch, force: bool, at: int, janitor: bool)
    requires Evicts(c) && WatchInv(c.evictAfter, tick, g.nextSweep, log, w) && OnWatch(w, tick, at)
    ensures var g' := Swept(c, g, force, at);
            g'.nextSweep.Some? && WatchInv(c.evictAfter, tick, g'.nextSweep, log + SweepEvents(c, g, force, at),
                                           Watch(if janitor then at else w.janitor, at))
  {
    if Sweeps(c, g, force, at) {
      WatchSeesSweep(c.evictAfter, tick, g.nextSweep, log, w, at, janitor);
    } else {
      assert log + [] == log;
    }
  }

  lemma WatchSeesCommand(c: Config, tick: nat, g: Guard, log: seq<Event>, w: Watch, cmd: Cmd)
    requires Evicts(c) && Inv(c, g, log) && WatchInv(c.evictAfter, tick, g.nextSweep, log, w)
    requires !Collides(c, g, cmd) && OnWatch(w, tick, cmd.at)
    ensures WatchInv(c.evictAfter, tick, After(c, g, cmd).nextSweep, log + Events(c, g, cmd), Watched(w, cmd))
  {
    match cmd
    case Janitor(force, at) => WatchSeesCall(c, tick, g, log, w, force, at, true);
    case Observe(labels, at) =>
      if Known(c, g, labels) {
        assert SlotInv(c, g, log, c.hash(labels));
        WatchSeesTuple(c.evictAfter, tick, g.nextSweep, log, w, labels, at);
      } else {
        var swept, log' := Swept(c, g, false, at), log + SweepEvents(c, g, false, at);
        WatchSeesCall(c, tick, g, log, w, false, at, false);
        if Admits(c, g, labels, at) {
          WatchSeesTuple(c.evictAfter, tick, swept.nextSweep, log', Watch(w.janitor, at), labels, at);
          assert log' + [Seen(labels, at)] == log + Events(c, g, cmd);
        } else {
          assert log' == log + Events(c, g, cmd);
        }
      }
  }

  lemma {:induction false} WatchedRunKeeps(c: Config, tick: nat, g: Guard, log: seq<Event>, w: Watch, cmds: seq<Cmd>,
                                           g': Guard, log': seq<Event>, w': Watch)
    requires Evicts(c) && Inv(c, g, log) && WatchInv(c.evictAfter, tick, g.nextSweep, log, w)
    requires WatchedRuns(c, tick, g, log, w, cmds, g', log', w')
    ensures WatchInv(c.evictAfter, tick, g'.nextSweep, log', w') && Runs(c, g, log, cmds, g', log')
    decreases |cmds|
  {
    if cmds != [] {
      StepPreservesInv(c, g, log, cmds[0]);
      WatchSeesCommand(c, tick, g, log, w, cmds[0]);
      WatchedRunKeeps(c, tick, After(c, g, cmds[0]), log + Events(c, g, cmds[0]), Watched(w, cmds[0]), cmds[1..], g', log', w');
    }
  }

  /** A janitor that calls every `tick` sweeps at most evictAfter + tick after any event, so a live series
      was observed within the last 2 * (evictAfter + tick). The gateway's janitor calls once a minute. */
  lemma SeriesAgeIsBounded(c: Config, tick: nat, start: int, cmds: seq<Cmd>, g: Guard, log: seq<Event>, w: Watch,
                           now: int, labels: Labels) returns (i: nat)
    requires c.evictAfter > 0 && c.deletes
    requires WatchedRuns(c, tick, EMPTY, [], Watch(start, start), cmds, g, log, w) && OnWatch(w, tick, now)
    requires labels in g.registry
    ensures SweptInTime(log, now, c.evictAfter + tick)
    ensures i < |log| && log[i].Seen? && log[i].labels == labels && now <= log[i].at + 2 * (c.evictAfter + tick)
  {
    WatchedRunKeeps(c, tick, EMPTY, [], Watch(start, start), cmds, g, log, w);
    i := LiveMeansRecentlySeen(c, g, log, now, c.evictAfter + tick, labels);
  }

  // ------------------------------------------------------------------ collisions

  /** An observation keeps registry and admitted tuples in step exactly when it does not collide. */
  lemma InStepIffNoCollision(c: Config, g: Guard, log: seq<Event>, cmd: Cmd)
    requires Inv(c, g, log)
    ensures After(c, g, cmd).registry == LabelsOf(After(c, g, cmd).seen) <==> !Collides(c, g, cmd)
  {
    if Collides(c, g, cmd) {
      var g' := After(c, g, cmd);
      assert cmd.labels in g'.registry;
      forall h | h in g'.seen
        ensures g'.seen[h].labels != cmd.labels
      {
        assert SlotInv(c, g, log, h);
      }
    } else {
      StepPreservesInv(c, g, log, cmd);
    }
  }

  // ------------------------------------------------------------------ the guard object

  class Guarded {
    const config: Config
    var seen: map<nat, Slot>
    var count: int
    var gen: nat
    var nextSweep: Option<int>
    var registry: set<Labels>
    ghost var log: seq<Event>

    function Model(): Guard
      reads this
    {
      Guard(seen, count, gen, nextSweep, registry)
    }

    ghost predicate Valid()
      reads this
    {
      Inv(config, Model(), log)
    }

    constructor (config: Config)
      ensures Valid() && this.config == config && Model() == EMPTY && log == []
    {
      this.config := config;
      seen, count, gen, nextSweep, registry, log := map[], 0, 0, None, {}, [];
    }

    /** One observation: true when the series is recorded, false when the tuple is dropped. The guard
        stays valid exactly when the tuple's hash is not that of another admitted tuple. */
    method Observe(labels: Labels, now: int) returns (admitted: bool)
      requires Valid()
      modifies this
      ensures Valid() <==> !Collides(config, old(Model()), Cmd.Observe(labels, now))
      ensures admitted == Admits(config, old(Model()), labels, now)
      ensures Model() == Observed(config, old(Model()), labels, now)
      ensures log == old(log) + Events(config, old(Model()), Cmd.Observe(labels, now))
      ensures admitted <==> labels in registry
      ensures !Collides(config, old(Model()), Cmd.Observe(labels, now)) ==>
                (admitted <==> || Fresh(old(log), labels)
                               || |FreshTuples(old(log) + SweepEvents(config, old(Model()), false, now))| < config.limit)
    {
      ghost var before, cmd := Model(), Cmd.Observe(labels, now);
      InStepIffNoCollision(config, before, log, cmd);
      if !Collides(config, before, cmd) {
        StepPreservesInv(config, before, log, cmd);
        AdmittedIffFreshOrRoom(config, before, log, labels, now);
      }
      var h := config.hash(labels);
      if h in seen {
        Touch(h);
        registry := registry + {labels};
        log := log + [Seen(labels, now)];
        return true;
      }
      SweepLocked(false, now);
      if count >= config.limit {
        assert log == old(log) + Events(config, before, cmd);
        return false;
      }
      seen := seen[h := Slot(gen, labels)];
      count := count + 1;
      registry := registry + {labels};
      log := log + [Seen(labels, now)];
      assert log == old(log) + Events(config, before, cmd);
      return true;
    }

    method Touch(h: nat)
      requires h in seen
      modifies this`seen
      ensures seen == old(seen)[h := old(seen)[h].(lastGen := gen)]
    {
      if seen[h].lastGen != gen {
        seen := seen[h := seen[h].(lastGen := gen)];
      }
    }

    method SweepLocked(force: bool, now: int)
      requires Valid()
      modifies this
      ensures Valid() && Model() == Swept(config, old(Model()), force, now)
      ensures log == old(log) + SweepEvents(config, old(Model()), force, now)
    {
      ghost var before := Model();
      SweepPreservesInv(config, before, log, force, now);
      if config.evictAfter <= 0 || !config.deletes {
        return;
      }
      if !force {
        if nextSweep.None? {
          nextSweep := Some(now + config.evictAfter);
          return;
        }
        if now < nextSweep.value {
          return;
        }
      }
      nextSweep := Some(now + config.evictAfter);
      var evicted := EvictIdle();
      count := count - evicted;
      gen := Next(gen);
      log := log + [Sweep(now)];
    }

    /** Range over the admitted tuples, in any order, dropping each one not stamped this generation. */
    method EvictIdle() returns (evicted: nat)
      modifies this`seen, this`registry
      ensures seen == Live(old(seen), gen)
      ensures registry == old(registry) - IdleLabels(old(seen), gen)
      ensures evicted == |old(seen)| - |seen|
    {
      var rest := seen.Keys;
      ghost var all := seen;
      evicted := 0;
      while rest != {}
        invariant rest <= seen.Keys <= all.Keys
        invariant forall h :: h in seen ==> seen[h] == all[h]
        invariant forall h :: h in all ==> (h in seen <==> h in rest || all[h].lastGen == gen)
        invariant forall x :: x in registry <==>
                    x in old(registry) && !exists h :: h in all && h !in seen && all[h].labels == x
        invariant evicted == |all| - |seen|
        decreases rest
      {
        var h :| h in rest;
        if seen[h].lastGen != gen {
          registry := registry - {seen[h].labels};
          ghost var kept := seen.Keys - {h};
          seen := seen - {h};
          assert seen.Keys == kept;
          evicted := evicted + 1;
        }
        rest := rest - {h};
      }
      assert seen == Live(all, gen);
    }
  }
}

/**
 MarkBroken as concurrent threads see it (gateway/domain_circuit_breaker.go): the check of the cache,
 the rate gate and the publication of a break are three separate critical sections, and the clock is
 read once, before the first. One (service, domain) pair, any number of threads, any interleaving
 with successes, refreshes and clears.
 */
module BreakerInterleaving {
  import opened Prelude
  import opened BreakerGate
  import opened CircuitBreaker

  datatype Phase = Checking | Gating | Publishing(hits: nat) | Returned

  /** `overtaken` records that since this thread's check another write put a break in force at the
      thread's clock reading where there was none. */
  datatype Thread = Thread(now: int, phase: Phase, overtaken: bool)

  /** `latest` is the clock reading of the thread that entered last, and `orderly` says that no thread
      read an earlier time than one before it. */
  datatype Shared = Shared(
    cached: Option<Broken>,
    window: Option<Window>,
    threads: map<nat, Thread>,
    history: seq<Outcome>,
    latest: Option<int>,
    orderly: bool)

  datatype Step =
    | Enter(t: nat, now: int)
    | Check(t: nat)
    | Gate(t: nat)
    | Publish(t: nat)
    | Succeed(now: int)
    | Refresh(now: int, remote: Option<Broken>)
    | ClearCache
    | ClearStats

  predicate InForce(cached: Option<Broken>, now: int) {
    cached.Some? && cached.value.expiry > now
  }

  predicate Enabled(g: Shared, s: Step) {
    match s
    case Enter(t, _) => t !in g.threads
    case Check(t) => t in g.threads && g.threads[t].phase == Checking
    case Gate(t) => t in g.threads && g.threads[t].phase == Gating
    case Publish(t) => t in g.threads && g.threads[t].phase.Publishing?
    case _ => true
  }

  /** The cached break changes from `was` to `is` under these threads. */
  function Overtaken(threads: map<nat, Thread>, was: Option<Broken>, is_: Option<Broken>): map<nat, Thread> {
    map t | t in threads ::
      var th := threads[t];
      th.(overtaken := th.overtaken || (InForce(is_, th.now) && !InForce(was, th.now)))
  }

  function RefreshedBreak(local: Option<Broken>, remote: Option<Broken>, now: int): Option<Broken> {
    if InForce(local, now) && (InForce(remote, now) ==> local.value.expiry > remote.value.expiry) then local
    else if InForce(remote, now) then remote
    else None
  }

  function Apply(s: Settings, g: Shared, step: Step): Shared
    requires Enabled(g, step)
  {
    match step
    case Enter(t, now) =>
      g.(threads := g.threads[t := Thread(now, Checking, false)],
         latest := Some(now),
         orderly := g.orderly && (g.latest.Some? ==> g.latest.value <= now))
    case Check(t) =>
      var th := g.threads[t];
      g.(threads := g.threads[t := Thread(th.now, if InForce(g.cached, th.now) then Returned else Gating, false)])
    case Gate(t) =>
      var th := g.threads[t];
      var (w, verdict) := AfterFailure(s.gate, g.window, th.now);
      g.(window := Some(w),
         history := g.history + [Failure(th.now)],
         threads := g.threads[t := th.(phase := if verdict.Some? then Publishing(verdict.value) else Returned)])
    case Publish(t) =>
      var th := g.threads[t];
      var published := Some(PublishedBreak(s, th));
      g.(cached := published, threads := Overtaken(g.threads, g.cached, published)[t := th.(phase := Returned)])
    case Succeed(now) =>
      g.(window := Some(AfterSuccess(s.gate, g.window, now)), history := g.history + [Outcome.Success(now)])
    case Refresh(now, remote) =>
      var refreshed := RefreshedBreak(g.cached, remote, now);
      g.(cached := refreshed, threads := Overtaken(g.threads, g.cached, refreshed))
    case ClearCache => g.(cached := None)
    case ClearStats => g.(window := None, history := [])
  }

  function PublishedBreak(s: Settings, th: Thread): Broken
    requires th.phase.Publishing?
  {
    Broken(th.now + EscalatedTTL(s.defaultTTL, s.maxTTL, th.phase.hits), th.phase.hits, "")
  }

  const INITIAL: Shared := Shared(None, None, map[], [], None, true)

  ghost predicate Runs(s: Settings, g: Shared, steps: seq<Step>, g': Shared)
    decreases |steps|
  {
    if steps == [] then g == g'
    else Enabled(g, steps[0]) && Runs(s, Apply(s, g, steps[0]), steps[1..], g')
  }

  ghost predicate Reachable(s: Settings, g: Shared) {
    exists steps :: Runs(s, INITIAL, steps, g)
  }

  // ------------------------------------------------------------------ what every interleaving keeps

  /** A thread past its check sees a break in force at its own clock reading only if overtaken. */
  ghost predicate ThreadInv(g: Shared, t: nat)
    requires t in g.threads
  {
    var th := g.threads[t];
    (th.phase.Gating? || th.phase.Publishing?) && InForce(g.cached, th.now) ==> th.overtaken
  }

  ghost predicate Inv(s: Settings, g: Shared) {
    g.window == State(s.gate, g.history) && forall t :: t in g.threads ==> ThreadInv(g, t)
  }

  lemma StepPreservesInv(s: Settings, g: Shared, step: Step)
    requires Inv(s, g) && Enabled(g, step)
    ensures Inv(s, Apply(s, g, step))
  {
    var g' := Apply(s, g, step);
    assert g'.window == State(s.gate, g'.history) by {
      if step.Gate? {
        Snoc(s.gate, g.history, Failure(g.threads[step.t].now));
      } else if step.Succeed? {
        Snoc(s.gate, g.history, Outcome.Success(step.now));
      }
    }
    forall t | t in g'.threads
      ensures ThreadInv(g', t)
    {
      StepKeepsThread(s, g, step, t);
    }
  }

  lemma StepKeepsThread(s: Settings, g: Shared, step: Step, t: nat)
    requires Enabled(g, step) && t in Apply(s, g, step).threads && (t in g.threads ==> ThreadInv(g, t))
    ensures ThreadInv(Apply(s, g, step), t)
  {
  }

  lemma {:induction false} RunPreservesInv(s: Settings, g: Shared, steps: seq<Step>, g': Shared)
    requires Inv(s, g) && Runs(s, g, steps, g')
    ensures Inv(s, g')
    decreases |steps|
  {
    if steps != [] {
      StepPreservesInv(s, g, steps[0]);
      RunPreservesInv(s, Apply(s, g, steps[0]), steps[1..], g');
    }
  }

  lemma ReachableInv(s: Settings, g: Shared)
    requires Reachable(s, g)
    ensures Inv(s, g)
  {
    var steps :| Runs(s, INITIAL, steps, g);
    RunPreservesInv(s, INITIAL, steps, g);
  }

  /** However the three sections interleave, a thread's gate breaks the domain exactly when the
      outcomes logged since the window opened justify it, and the hit count it will publish is the
      length of the chain of breaks ending with this one. */
  lemma EveryBreakIsJustified(s: Settings, g: Shared, t: nat)
    requires Reachable(s, g) && Enabled(g, Gate(t))
    ensures var now := g.threads[t].now;
            var h := g.history + [Failure(now)];
            var o := WindowAt(s.gate, h, |g.history|).from;
            var after := Apply(s, g, Gate(t)).threads[t].phase;
            && 0 < Failures(h[o..])
            && (after.Publishing? <==> TooManyFail(s.gate, h[o..], LastBreak(s.gate, g.history), now))
            && (after.Publishing? ==> LongestChain(s.gate.escalationMemory, Breaks(s.gate, h), after.hits))
  {
    ReachableInv(s, g);
    JustifiedOnHistory(s.gate, g.history, g.threads[t].now);
  }

  lemma JustifiedOnHistory(p: Params, past: seq<Outcome>, now: int)
    ensures var h := past + [Failure(now)];
            var o := WindowAt(p, h, |past|).from;
            var verdict := Verdict(p, State(p, past), Failure(now));
            && 0 < Failures(h[o..])
            && (verdict.Some? <==> TooManyFail(p, h[o..], LastBreak(p, past), now))
            && (verdict.Some? ==> LongestChain(p.escalationMemory, Breaks(p, h), verdict.value))
  {
    GateAnswers(p, past, now);
  }

  /** What the pair's cache and window are in a breaker. */
  function CachedIn(b: Breaker, svc: string, dom: string): Option<Broken> {
    if dom in DomainsOf(b, svc) then Some(DomainsOf(b, svc)[dom]) else None
  }

  /** The sections of one thread, one after the other. */
  function BackToBack(s: Settings, g: Shared, t: nat, now: int): Shared
    requires t !in g.threads
  {
    var checked := Apply(s, Apply(s, g, Enter(t, now)), Check(t));
    if checked.threads[t].phase != Gating then checked
    else
      var gated := Apply(s, checked, Gate(t));
      if gated.threads[t].phase.Publishing? then Apply(s, gated, Publish(t)) else gated
  }

  /** One uninterrupted mark of a pair: the break cached and the window afterwards. */
  function OneMark(s: Settings, cached: Option<Broken>, window: Option<Window>, now: int): (Option<Broken>, Option<Window>) {
    if InForce(cached, now) then (cached, window)
    else
      var (w, verdict) := AfterFailure(s.gate, window, now);
      (if verdict.None? then cached
       else Some(Broken(now + EscalatedTTL(s.defaultTTL, s.maxTTL, verdict.value), verdict.value, "")), Some(w))
  }

  lemma BackToBackIsOneMark(s: Settings, g: Shared, t: nat, now: int)
    requires t !in g.threads
    ensures var g' := BackToBack(s, g, t, now);
            (g'.cached, g'.window) == OneMark(s, g.cached, g.window, now) && g'.threads[t].phase == Returned
  {
  }

  lemma MarkedIsOneMark(s: Settings, b: Breaker, svc: string, dom: string, now: int)
    ensures var b' := Marked(s, b, svc, dom, "", now);
            (CachedIn(b', svc, dom), WindowOf(b', svc, dom)) == OneMark(s, CachedIn(b, svc, dom), WindowOf(b, svc, dom), now)
  {
  }

  /** Run back to back, the three sections are MarkBroken: they leave the pair's cached break and window
      as the breaker's own operation does, and the thread has returned. */
  lemma BackToBackIsMarkBroken(s: Settings, b: Breaker, svc: string, dom: string, g: Shared, t: nat, now: int)
    requires t !in g.threads && g.cached == CachedIn(b, svc, dom) && g.window == WindowOf(b, svc, dom)
    ensures var g', b' := BackToBack(s, g, t, now), Marked(s, b, svc, dom, "", now);
            && g'.cached == CachedIn(b', svc, dom) && g'.window == WindowOf(b', svc, dom)
            && g'.threads[t].phase == Returned
  {
    BackToBackIsOneMark(s, g, t, now);
    MarkedIsOneMark(s, b, svc, dom, now);
  }

  /** A duplicate of an episode in force reaches the gate only if another write put that break in force
      between this thread's check and its gate: never when the sections run back to back. */
  lemma DuplicateReachesGateOnlyIfOvertaken(s: Settings, g: Shared, t: nat)
    requires Reachable(s, g) && Enabled(g, Gate(t)) && InForce(g.cached, g.threads[t].now)
    ensures g.threads[t].overtaken
  {
    ReachableInv(s, g);
    assert ThreadInv(g, t);
  }

  /** Likewise a publication can only shorten a break if it was put in force since the check. */
  lemma PublishShortensOnlyIfOvertaken(s: Settings, g: Shared, t: nat)
    requires Reachable(s, g) && Enabled(g, Publish(t)) && g.cached.Some?
    requires Apply(s, g, Publish(t)).cached.value.expiry < g.cached.value.expiry
    ensures g.threads[t].overtaken
  {
    ReachableInv(s, g);
    assert ThreadInv(g, t);
  }

  // ------------------------------------------------------------------ what interleaving can break

  lemma {:induction false} Extend(s: Settings, g: Shared, steps: seq<Step>, g': Shared, step: Step)
    requires Runs(s, g, steps, g') && Enabled(g', step)
    ensures Runs(s, g, steps + [step], Apply(s, g', step))
    decreases |steps|
  {
    if steps == [] {
      assert [step][1..] == [];
    } else {
      Extend(s, Apply(s, g, steps[0]), steps[1..], g', step);
      assert (steps + [step])[1..] == steps[1..] + [step];
    }
  }

  lemma StepReaches(s: Settings, g: Shared, step: Step)
    requires Reachable(s, g) && Enabled(g, step)
    ensures Reachable(s, Apply(s, g, step))
  {
    var steps :| Runs(s, INITIAL, steps, g);
    Extend(s, INITIAL, steps, g, step);
  }

  /** How many failures in a row it takes to break a domain that answers nothing else. */
  function Burst(s: Settings): nat { if s.gate.minFailures > 1 then s.gate.minFailures else 1 }

  /** The clock readings of two bursts of threads: the first at `a`, the second at `b`. */
  function Reading(s: Settings, a: int, b: int, t: nat): int { if t < Burst(s) then a else b }

  /** The threads are those numbered below `m`, and they read the clock in order. */
  ghost predicate Threads(g: Shared, m: nat) { g.orderly && forall t: nat :: t in g.threads <==> t < m }

  /** Threads from `k` on, up to two bursts, have passed their check and wait for the gate. */
  ghost predicate Waiting(s: Settings, a: int, b: int, g: Shared, k: nat) {
    forall t: nat :: k <= t < 2 * Burst(s) ==>
      t in g.threads && g.threads[t].phase == Gating && g.threads[t].now == Reading(s, a, b, t)
  }

  /** A fresh thread reads the clock and passes its check. */
  lemma EnterOne(s: Settings, g: Shared, t: nat, now: int) returns (g': Shared)
    requires Reachable(s, g) && g.cached.None? && t !in g.threads && g.orderly && (g.latest.Some? ==> g.latest.value <= now)
    ensures Reachable(s, g') && g' == g.(threads := g.threads[t := Thread(now, Gating, false)], latest := Some(now))
  {
    StepReaches(s, g, Enter(t, now));
    var g1 := Apply(s, g, Enter(t, now));
    StepReaches(s, g1, Check(t));
    g' := Apply(s, g1, Check(t));
  }

  /** Threads `lo` up to `hi` have entered, in the order of their readings, and nothing else happened. */
  ghost predicate Entered(s: Settings, a: int, b: int, g: Shared, lo: nat, hi: nat) {
    && Reachable(s, g) && g.cached.None? && g.window.None? && g.orderly
    && (forall t: nat :: t in g.threads <==> lo <= t < hi)
    && (forall t: nat :: lo <= t < hi ==> g.threads[t].phase == Gating && g.threads[t].now == Reading(s, a, b, t))
    && (g.latest.Some? <==> lo < hi)
  }

  lemma {:induction false} EnterUpwards(s: Settings, a: int, b: int, m: nat) returns (g: Shared)
    requires a <= b
    ensures Entered(s, a, b, g, 0, m) && (m > 0 ==> g.latest == Some(Reading(s, a, b, m - 1)))
    decreases m
  {
    if m == 0 {
      assert Runs(s, INITIAL, [], INITIAL);
      g := INITIAL;
    } else {
      var g0 := EnterUpwards(s, a, b, m - 1);
      g := EnterOne(s, g0, m - 1, Reading(s, a, b, m - 1));
    }
  }

  lemma {:induction false} EnterDownwards(s: Settings, a: int, b: int, m: nat, k: nat) returns (g: Shared)
    requires b <= a && k <= m
    ensures Entered(s, a, b, g, k, m) && (k < m ==> g.latest == Some(Reading(s, a, b, k)))
    decreases m - k
  {
    if k == m {
      assert Runs(s, INITIAL, [], INITIAL);
      g := INITIAL;
    } else {
      var g0 := EnterDownwards(s, a, b, m, k + 1);
      g := EnterOne(s, g0, k, Reading(s, a, b, k));
    }
  }

  /** Both bursts enter, the one with the earlier reading first. */
  lemma AllEnter(s: Settings, a: int, b: int) returns (g: Shared)
    ensures Entered(s, a, b, g, 0, 2 * Burst(s))
  {
    if a <= b {
      g := EnterUpwards(s, a, b, 2 * Burst(s));
    } else {
      g := EnterDownwards(s, a, b, 2 * Burst(s), 0);
    }
  }

  /** A failure that is not enough is counted, and nothing else happens. */
  lemma Suppressed(p: Params, w: Option<Window>, now: int, k: nat)
    requires k + 1 < p.minFailures && k == if w.None? then 0 else w.value.failures
    requires w.Some? ==> w.value.successes == 0 && (k > 0 ==> now - w.value.start <= p.failureWindow)
    ensures AfterFailure(p, w, now).1.None?
    ensures var v := AfterFailure(p, w, now).0;
            && v.failures == k + 1 && v.successes == 0 && now - v.start <= p.failureWindow
            && v.lastEpisodeAt == (if w.None? then None else w.value.lastEpisodeAt)
            && v.lastHitCount == (if w.None? then 0 else w.value.lastHitCount)
  {
  }

  /** With nothing but failures on record, one that reaches the floor breaks the domain exactly when the
      line it is held to is at most one. */
  lemma Breaking(p: Params, w: Option<Window>, now: int, k: nat)
    requires p.minFailures <= k + 1 && k == if w.None? then 0 else w.value.failures
    requires w.Some? ==> w.value.successes == 0 && (k > 0 ==> now - w.value.start <= p.failureWindow)
    requires Line(p, w.Some? && Recent(p, w.value.lastEpisodeAt, now)) <= 1.0
    ensures AfterFailure(p, w, now).1
            == Some(if w.Some? && Recent(p, w.value.lastEpisodeAt, now) then w.value.lastHitCount + 1 else 1)
  {
    var line := Line(p, w.Some? && Recent(p, w.value.lastEpisodeAt, now));
    AtMostAll(line, k + 1);
  }

  lemma AtMostAll(line: real, n: nat)
    requires line <= 1.0
    ensures line * n as real <= n as real
  {
    assert (1.0 - line) * n as real >= 0.0;
  }

  /** The first `k` threads of the first burst have failed at the gate, too few to break. */
  lemma {:induction false} FirstFailures(s: Settings, a: int, b: int, k: nat) returns (g: Shared)
    requires k < Burst(s)
    ensures Reachable(s, g) && g.cached.None? && Threads(g, 2 * Burst(s)) && Waiting(s, a, b, g, k)
    ensures if k == 0 then g.window.None?
            else g.window.Some? && g.window.value.failures == k && g.window.value.successes == 0
                 && a - g.window.value.start <= s.gate.failureWindow && g.window.value.lastEpisodeAt.None?
    decreases k
  {
    if k == 0 {
      g := AllEnter(s, a, b);
    } else {
      var g0 := FirstFailures(s, a, b, k - 1);
      Suppressed(s.gate, g0.window, a, k - 1);
      StepReaches(s, g0, Gate(k - 1));
      g := Apply(s, g0, Gate(k - 1));
    }
  }

  /** The last thread of the first burst breaks the domain and has yet to publish. */
  lemma FirstBreak(s: Settings, a: int, b: int) returns (g: Shared)
    requires s.gate.threshold <= 1.0
    ensures Reachable(s, g) && g.cached.None? && Threads(g, 2 * Burst(s)) && Waiting(s, a, b, g, Burst(s))
    ensures g.window == Some(Window(a, 0, 0, Some(a), 1))
    ensures g.threads[Burst(s) - 1].phase == Publishing(1) && g.threads[Burst(s) - 1].now == a
  {
    var last := Burst(s) - 1;
    var g0 := FirstFailures(s, a, b, last);
    Breaking(s.gate, g0.window, a, last);
    StepReaches(s, g0, Gate(last));
    g := Apply(s, g0, Gate(last));
  }

  lemma PublishFirst(s: Settings, a: int, b: int) returns (g: Shared)
    requires s.gate.threshold <= 1.0
    ensures Reachable(s, g) && Threads(g, 2 * Burst(s)) && Waiting(s, a, b, g, Burst(s))
    ensures g.window == Some(Window(a, 0, 0, Some(a), 1))
    ensures g.cached == Some(Broken(a + s.defaultTTL, 1, ""))
  {
    var g0 := FirstBreak(s, a, b);
    StepReaches(s, g0, Publish(Burst(s) - 1));
    g := Apply(s, g0, Publish(Burst(s) - 1));
  }

  /** The second burst fails behind a first break, published or not, up to its last thread. */
  lemma {:induction false} SecondFailures(s: Settings, a: int, b: int, g0: Shared, k: nat) returns (g: Shared)
    requires k < Burst(s) && Reachable(s, g0) && Waiting(s, a, b, g0, Burst(s))
    requires Threads(g0, 2 * Burst(s)) && g0.window == Some(Window(a, 0, 0, Some(a), 1))
    ensures Reachable(s, g) && g.cached == g0.cached && Threads(g, 2 * Burst(s)) && Waiting(s, a, b, g, Burst(s) + k)
    ensures g.threads[Burst(s) - 1] == g0.threads[Burst(s) - 1]
    ensures g.window.Some? && g.window.value.failures == k && g.window.value.successes == 0
    ensures k > 0 ==> b - g.window.value.start <= s.gate.failureWindow
    ensures g.window.value.lastEpisodeAt == Some(a) && g.window.value.lastHitCount == 1
    decreases k
  {
    if k == 0 {
      g := g0;
    } else {
      var g1 := SecondFailures(s, a, b, g0, k - 1);
      var t := Burst(s) + k - 1;
      Suppressed(s.gate, g1.window, b, k - 1);
      StepReaches(s, g1, Gate(t));
      g := Apply(s, g1, Gate(t));
    }
  }

  // ------------------------------------------------------------------ one incident, two breaks

  /** A thread at the gate whose domain is already broken, and whose failure will escalate the break. */
  ghost predicate Escalates(s: Settings, g: Shared, t: nat) {
    && Reachable(s, g) && Enabled(g, Gate(t)) && InForce(g.cached, g.threads[t].now)
    && var after := Apply(s, g, Gate(t)).threads[t].phase; after.Publishing? && after.hits >= 2
  }

  /** Two bursts of threads pass their check together. The first breaks the domain and publishes; the
      second breaks it again though the break is in force. */
  lemma IncidentEscalates(s: Settings, a: int, b: int) returns (g: Shared, t: nat)
    requires s.gate.threshold <= 1.0 && s.gate.threshold + s.gate.rebreakMargin <= 1.0
    requires b < a + s.defaultTTL && b - a <= s.gate.escalationMemory
    ensures Escalates(s, g, t) && Threads(g, 2 * Burst(s))
    ensures Apply(s, g, Gate(t)).threads[t].phase == Publishing(2)
  {
    var last := Burst(s) - 1;
    var g0 := PublishFirst(s, a, b);
    g := SecondFailures(s, a, b, g0, last);
    t := Burst(s) + last;
    Breaking(s.gate, g.window, b, last);
  }

  /** No break at all is possible above a line of one, so a remembered one shows the lines are not. */
  lemma LineMet(p: Params, w: Option<Window>, now: int)
    requires AfterFailure(p, w, now).1.Some?
    ensures Line(p, w.Some? && Recent(p, w.value.lastEpisodeAt, now)) <= 1.0
  {
    var v := Rolled(p, w, now);
    var f, total := (v.failures + 1) as real, (v.failures + 1 + v.successes) as real;
    var line := Line(p, w.Some? && Recent(p, w.value.lastEpisodeAt, now));
    assert line * total <= f <= total && total > 0.0;
    NoMoreThanOne(line, total);
  }

  lemma NoMoreThanOne(x: real, y: real)
    requires 0.0 < y && x * y <= y
    ensures x <= 1.0
  {
    assert (1.0 - x) * y >= 0.0;
  }

  lemma {:induction false} BrokenBefore(p: Params, h: seq<Outcome>)
    requires h != [] && State(p, h).value.lastEpisodeAt.Some?
    ensures p.threshold <= 1.0
    decreases |h|
  {
    var n := |h| - 1;
    var w := State(p, h[..n]);
    if w.Some? && w.value.lastEpisodeAt.Some? {
      BrokenBefore(p, h[..n]);
    } else {
      LineMet(p, w, h[n].at);
    }
  }

  /** Whatever the settings, one incident can escalate twice if and only if both lines can be met, and
      then it can with threads that read the clock in order. */
  lemma IncidentEscalatesIff(s: Settings)
    ensures (exists g, t :: Escalates(s, g, t))
            <==> s.gate.threshold <= 1.0 && s.gate.threshold + s.gate.rebreakMargin <= 1.0
    ensures (exists g, t :: Escalates(s, g, t)) ==> exists g, t :: Escalates(s, g, t) && g.orderly
  {
    if s.gate.threshold <= 1.0 && s.gate.threshold + s.gate.rebreakMargin <= 1.0 {
      var g, t := IncidentEscalates(s, 1, 0);
    }
    if g, t :| Escalates(s, g, t) {
      ReachableInv(s, g);
      LineMet(s.gate, g.window, g.threads[t].now);
      BrokenBefore(s.gate, g.history);
    }
  }

  // ------------------------------------------------------------------ a break cut short

  /** A thread whose publication will shorten the break in force. */
  ghost predicate Shortens(s: Settings, g: Shared, t: nat) {
    && Reachable(s, g) && Enabled(g, Publish(t)) && InForce(g.cached, g.threads[t].now)
    && Apply(s, g, Publish(t)).cached.value.expiry < g.cached.value.expiry
  }

  /** The second burst breaks the domain again before the first break is published, and publishes
      first: the older, shorter break then replaces the newer one. */
  lemma PublicationShortens(s: Settings, a: int, b: int) returns (g: Shared, t: nat)
    requires s.gate.threshold <= 1.0 && Line(s.gate, b - a <= s.gate.escalationMemory) <= 1.0
    requires a + s.defaultTTL < b + EscalatedTTL(s.defaultTTL, s.maxTTL, if b - a <= s.gate.escalationMemory then 2 else 1)
    ensures Shortens(s, g, t) && Threads(g, 2 * Burst(s))
  {
    var last := Burst(s) - 1;
    var g0 := FirstBreak(s, a, b);
    var g1 := SecondFailures(s, a, b, g0, last);
    Breaking(s.gate, g1.window, b, last);
    StepReaches(s, g1, Gate(Burst(s) + last));
    var g2 := Apply(s, g1, Gate(Burst(s) + last));
    StepReaches(s, g2, Publish(Burst(s) + last));
    g := Apply(s, g2, Publish(Burst(s) + last));
    t := last;
  }

  /** A thread about to publish has met a line. */
  ghost predicate PublisherInv(s: Settings, g: Shared) {
    forall t :: t in g.threads && g.threads[t].phase.Publishing? ==> s.gate.threshold <= 1.0
  }

  lemma StepKeepsPublishers(s: Settings, g: Shared, step: Step)
    requires Inv(s, g) && PublisherInv(s, g) && Enabled(g, step)
    ensures PublisherInv(s, Apply(s, g, step))
  {
    if step.Gate? {
      var now := g.threads[step.t].now;
      if AfterFailure(s.gate, g.window, now).1.Some? {
        LineMet(s.gate, g.window, now);
        if g.window.Some? && g.window.value.lastEpisodeAt.Some? {
          BrokenBefore(s.gate, g.history);
        }
      }
    }
  }

  lemma {:induction false} RunKeepsPublishers(s: Settings, g: Shared, steps: seq<Step>, g': Shared)
    requires Inv(s, g) && PublisherInv(s, g) && Runs(s, g, steps, g')
    ensures PublisherInv(s, g')
    decreases |steps|
  {
    if steps != [] {
      StepPreservesInv(s, g, steps[0]);
      StepKeepsPublishers(s, g, steps[0]);
      RunKeepsPublishers(s, Apply(s, g, steps[0]), steps[1..], g');
    }
  }

  /** Whatever the settings, a publication can shorten a break in force if and only if the domain can
      break at all, and then it can with threads that read the clock in order. */
  lemma PublicationShortensIff(s: Settings)
    ensures (exists g, t :: Shortens(s, g, t)) <==> s.gate.threshold <= 1.0
    ensures (exists g, t :: Shortens(s, g, t)) ==> exists g, t :: Shortens(s, g, t) && g.orderly
  {
    if s.gate.threshold <= 1.0 {
      var g, t := PublicationShortens(s, 0, s.gate.escalationMemory + 1);
    }
    if g, t :| Shortens(s, g, t) {
      var steps :| Runs(s, INITIAL, steps, g);
      RunKeepsPublishers(s, INITIAL, steps, g);
    }
  }

  // ------------------------------------------------------------------ the settings in use

  /** The settings every breaker is created with. */
  const PRODUCTION: Settings :=
    Settings(Params(30 * SECOND, 5, 0.20, 0.15, 3600 * SECOND), 60 * SECOND, 1800 * SECOND, 5 * SECOND)

  /** In production ten simultaneous failures are enough for both. */
  lemma TenFailuresSuffice() returns (g: Shared, t: nat, g': Shared, t': nat)
    ensures Escalates(PRODUCTION, g, t) && Threads(g, 10)
    ensures Shortens(PRODUCTION, g', t') && Threads(g', 10)
  {
    Pow2Values();
    g, t := IncidentEscalates(PRODUCTION, 0, 0);
    g', t' := PublicationShortens(PRODUCTION, 0, 0);
  }
}

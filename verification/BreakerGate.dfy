/**
 The failure-rate gate of the domain circuit breaker (gateway/domain_circuit_breaker.go), for one
 (service, domain) pair.

 The gate keeps four counters and a timestamp. What it is meant to decide is a question about the
 pair's history: the outcomes recorded since the last administrative clear. The functions compute
 with the counters; the lemmas say what they compute in terms of the history alone.
 */
module BreakerGate {
  import opened Prelude

  datatype Params = Params(
    failureWindow: nat,
    minFailures: int,
    threshold: real,
    rebreakMargin: real,
    escalationMemory: nat)

  datatype Window = Window(
    start: int,
    failures: nat,
    successes: nat,
    lastEpisodeAt: Option<int>,
    lastHitCount: nat)

  /** windowLocked: a fresh window for an unknown domain, the current one rolled over once it elapsed. */
  function Rolled(p: Params, w: Option<Window>, now: int): Window {
    match w
    case None => Window(now, 0, 0, None, 0)
    case Some(v) =>
      if now - v.start > p.failureWindow then v.(start := now, failures := 0, successes := 0) else v
  }

  function AfterSuccess(p: Params, w: Option<Window>, now: int): Window {
    var v := Rolled(p, w, now);
    v.(successes := v.successes + 1)
  }

  /** "Broke recently", the predicate hysteresis and escalation share. */
  predicate Recent(p: Params, last: Option<int>, now: int) {
    last.Some? && now - last.value <= p.escalationMemory
  }

  function Line(p: Params, recent: bool): real {
    if recent then p.threshold + p.rebreakMargin else p.threshold
  }

  /** Both gate conditions: enough failures, and a failure fraction on or above the line. */
  predicate Qualifies(p: Params, failures: nat, successes: nat, recent: bool) {
    p.minFailures <= failures && Line(p, recent) * (failures + successes) as real <= failures as real
  }

  /** shouldBreak: the window after recording one failure, and the hit count if it breaks. */
  function AfterFailure(p: Params, w: Option<Window>, now: int): (Window, Option<nat>) {
    var rolled := Rolled(p, w, now);
    var v := rolled.(failures := rolled.failures + 1);
    var recent := Recent(p, v.lastEpisodeAt, now);
    if !Qualifies(p, v.failures, v.successes, recent) then (v, None)
    else
      var hits := if recent then v.lastHitCount + 1 else 1;
      (Window(now, 0, 0, Some(now), hits), Some(hits))
  }

  // ------------------------------------------------------------------ history

  datatype Outcome = Success(at: int) | Failure(at: int)

  function AfterOutcome(p: Params, w: Option<Window>, e: Outcome): Window {
    match e
    case Success(at) => AfterSuccess(p, w, at)
    case Failure(at) => AfterFailure(p, w, at).0
  }

  /** The gate's state after a history, in lock order. */
  function State(p: Params, h: seq<Outcome>): Option<Window> {
    if h == [] then None
    else Some(AfterOutcome(p, State(p, h[..|h| - 1]), h[|h| - 1]))
  }

  /** What the gate answers to one outcome: the hit count of the break it causes, if it does. */
  function Verdict(p: Params, w: Option<Window>, e: Outcome): Option<nat> {
    if e.Failure? then AfterFailure(p, w, e.at).1 else None
  }

  /** The gate's answers to a whole history, one per outcome. */
  function Verdicts(p: Params, h: seq<Outcome>): (v: seq<Option<nat>>)
    ensures |v| == |h|
  {
    if h == [] then []
    else Verdicts(p, h[..|h| - 1]) + [Verdict(p, State(p, h[..|h| - 1]), h[|h| - 1])]
  }

  predicate BreaksAt(p: Params, h: seq<Outcome>, k: nat)
    requires k < |h|
  {
    Verdicts(p, h)[k].Some?
  }

  function Failures(h: seq<Outcome>): nat {
    if h == [] then 0 else Failures(h[..|h| - 1]) + if h[|h| - 1].Failure? then 1 else 0
  }

  function Successes(h: seq<Outcome>): nat {
    if h == [] then 0 else Successes(h[..|h| - 1]) + if h[|h| - 1].Success? then 1 else 0
  }

  /** Times of the breaks in a history, oldest first. */
  function BreakTimes(h: seq<Outcome>, v: seq<Option<nat>>): seq<int>
    requires |h| == |v|
  {
    if h == [] then []
    else BreakTimes(h[..|h| - 1], v[..|h| - 1]) + if v[|h| - 1].Some? then [h[|h| - 1].at] else []
  }

  function Breaks(p: Params, h: seq<Outcome>): seq<int> { BreakTimes(h, Verdicts(p, h)) }

  function LastBreak(p: Params, h: seq<Outcome>): Option<int> {
    var times := Breaks(p, h);
    if times == [] then None else Some(times[|times| - 1])
  }

  /** What justifies removing a domain: minFailures failures, and a failed fraction of all outcomes that
      reaches the threshold, plus the margin when the last break is at most escalationMemory ago. */
  ghost predicate TooMany(p: Params, failures: nat, successes: nat, last: Option<int>, now: int) {
    var margin := if last.Some? && now - last.value <= p.escalationMemory then p.rebreakMargin else 0.0;
    p.minFailures <= failures && (p.threshold + margin) * (failures + successes) as real <= failures as real
  }

  /** That of the outcomes of one window. */
  ghost predicate TooManyFail(p: Params, window: seq<Outcome>, last: Option<int>, now: int) {
    TooMany(p, Failures(window), Successes(window), last, now)
  }

  // ------------------------------------------------------------------ the counters are the history

  lemma Snoc(p: Params, h: seq<Outcome>, e: Outcome)
    ensures State(p, h + [e]) == Some(AfterOutcome(p, State(p, h), e))
    ensures Verdicts(p, h + [e]) == Verdicts(p, h) + [Verdict(p, State(p, h), e)]
    ensures Breaks(p, h + [e]) == Breaks(p, h) + if Verdict(p, State(p, h), e).Some? then [e.at] else []
  {
    assert (h + [e])[..|h|] == h;
    var v := Verdicts(p, h);
    assert (v + [Verdict(p, State(p, h), e)])[..|h|] == v;
  }

  lemma SnocCounts(h: seq<Outcome>, e: Outcome)
    ensures Failures(h + [e]) == Failures(h) + if e.Failure? then 1 else 0
    ensures Successes(h + [e]) == Successes(h) + if e.Success? then 1 else 0
  {
    assert (h + [e])[..|h|] == h;
  }

  function Counted(w: Window, e: Outcome): Window {
    if e.Failure? then w.(failures := w.failures + 1) else w.(successes := w.successes + 1)
  }

  /** One step of the gate, read off its two outputs: a break empties the window and remembers the
      episode, anything else rolls the window if it has elapsed and counts the outcome. */
  ghost predicate Stepped(p: Params, w: Option<Window>, e: Outcome, verdict: Option<nat>, w': Window) {
    && (verdict.Some? ==> e.Failure? && w' == Window(e.at, 0, 0, Some(e.at), verdict.value))
    && (verdict.None? ==> w' == Counted(Rolled(p, w, e.at), e))
  }

  lemma {:induction false} PrefixVerdicts(p: Params, h: seq<Outcome>, n: nat)
    requires n <= |h|
    ensures Verdicts(p, h[..n]) == Verdicts(p, h)[..n]
  {
    if n == |h| {
      assert h[..n] == h;
    } else {
      PrefixVerdicts(p, h[..|h| - 1], n);
      assert h[..|h| - 1][..n] == h[..n];
    }
  }

  // ------------------------------------------------------------------ when windows open

  /** A window holds the outcomes from index `from` on, and opened at time `at`. */
  datatype Span = Span(from: nat, at: int)

  /** The window the last outcome of `h` falls in, given the answers to the outcomes before it. The
      first outcome opens one; so does one that comes more than failureWindow after the window in force
      opened; any other falls in the window in force. */
  function Weighed(p: Params, h: seq<Outcome>, v: seq<Option<nat>>): (s: Span)
    requires |h| == |v| + 1
    ensures s.from <= |v|
    decreases |h|, 0
  {
    var n := |v|;
    if n == 0 then Span(0, h[0].at)
    else
      var s := Current(p, h[..n], v);
      if h[n].at - s.at > p.failureWindow then Span(n, h[n].at) else s
  }

  /** The window in force after `h`: a break opens an empty one, otherwise it is the one the last
      outcome fell in. */
  function Current(p: Params, h: seq<Outcome>, v: seq<Option<nat>>): (s: Span)
    requires h != [] && |h| == |v|
    ensures s.from <= |h|
    decreases |h|, 1
  {
    var n := |h| - 1;
    if v[n].Some? then Span(|h|, h[n].at) else Weighed(p, h, v[..n])
  }

  /** The window outcome `k` of a history falls in. */
  function WindowAt(p: Params, h: seq<Outcome>, k: nat): (s: Span)
    requires k < |h|
    ensures s.from <= k
  {
    Weighed(p, h[..k + 1], Verdicts(p, h)[..k])
  }

  ghost predicate Counts(w: Option<Window>, h: seq<Outcome>, s: Span)
    requires s.from <= |h|
  {
    && w.Some? && w.value.start == s.at
    && w.value.failures == Failures(h[s.from..]) && w.value.successes == Successes(h[s.from..])
  }

  /** The gate's counters are those of the window in force. */
  lemma {:induction false} WindowExists(p: Params, h: seq<Outcome>)
    requires h != []
    ensures Counts(State(p, h), h, Current(p, h, Verdicts(p, h)))
  {
    var n := |h| - 1;
    var past, e := h[..n], h[n];
    assert h == past + [e];
    Snoc(p, past, e);
    if past != [] {
      WindowExists(p, past);
    }
    ExtendWindow(p, past, Verdicts(p, past), State(p, past), e, Verdict(p, State(p, past), e), AfterOutcome(p, State(p, past), e));
  }

  /** The window one more outcome leaves behind: emptied by a break, rolled, or grown by one. */
  lemma ExtendWindow(p: Params, past: seq<Outcome>, v: seq<Option<nat>>, w: Option<Window>,
                     e: Outcome, verdict: Option<nat>, w': Window)
    requires |past| == |v| && Stepped(p, w, e, verdict, w')
    requires if past == [] then w.None? else Counts(w, past, Current(p, past, v))
    ensures Counts(Some(w'), past + [e], Current(p, past + [e], v + [verdict]))
  {
    assert (past + [e])[..|past|] == past && (v + [verdict])[..|past|] == v;
    if verdict.Some? {
      assert (past + [e])[|past| + 1..] == [];
    } else if past == [] || e.at - Current(p, past, v).at > p.failureWindow {
      SnocCounts([], e);
      assert (past + [e])[|past|..] == [] + [e];
    } else {
      var o := Current(p, past, v).from;
      assert (past + [e])[o..] == past[o..] + [e];
      SnocCounts(past[o..], e);
    }
  }

  /** A window opens with its first outcome or with the break just before it, and nothing it holds has
      broken the domain or is more than failureWindow younger than its opening. */
  ghost predicate Coherent(p: Params, h: seq<Outcome>, v: seq<Option<nat>>, s: Span)
    requires |h| - 1 <= |v| <= |h|
  {
    && s.from <= |h|
    && ((s.from < |h| && h[s.from].at == s.at) || (0 < s.from <= |v| && h[s.from - 1].at == s.at && v[s.from - 1].Some?))
    && (forall i :: s.from <= i < |v| ==> v[i].None?)
    && (forall i :: s.from <= i < |h| ==> h[i].at - s.at <= p.failureWindow)
  }

  lemma {:induction false} WeighedIsCoherent(p: Params, h: seq<Outcome>, v: seq<Option<nat>>)
    requires |h| == |v| + 1
    ensures Coherent(p, h, v, Weighed(p, h, v))
    decreases |h|
  {
    var n := |v|;
    if n > 0 && v[n - 1].None? {
      WeighedIsCoherent(p, h[..n], v[..n - 1]);
    }
  }

  lemma {:induction false} EpisodeMemory(p: Params, h: seq<Outcome>)
    requires h != []
    ensures State(p, h).value.lastEpisodeAt == LastBreak(p, h)
  {
    var n := |h| - 1;
    var past, e := h[..n], h[n];
    assert h == past + [e];
    Snoc(p, past, e);
    if past != [] {
      EpisodeMemory(p, past);
    }
  }

  /** The window outcome `k` falls in is coherent, and before the gate has answered the outcome its
      counters are those of that window. */
  lemma WindowAround(p: Params, h: seq<Outcome>, k: nat)
    requires k < |h|
    ensures Coherent(p, h[..k + 1], Verdicts(p, h)[..k], WindowAt(p, h, k))
    ensures var v, s := Rolled(p, State(p, h[..k]), h[k].at), WindowAt(p, h, k);
            v.start == s.at && v.failures == Failures(h[s.from..k]) && v.successes == Successes(h[s.from..k])
  {
    PrefixVerdicts(p, h, k);
    WeighedIsCoherent(p, h[..k + 1], Verdicts(p, h)[..k]);
    if k > 0 {
      WindowExists(p, h[..k]);
      var o := Current(p, h[..k], Verdicts(p, h[..k])).from;
      assert h[..k + 1][..k] == h[..k] && h[..k][o..] == h[o..k];
    }
    assert h[k..k] == [];
  }

  lemma VerdictMeans(p: Params, w: Option<Window>, at: int, failures: nat, successes: nat, last: Option<int>)
    requires var v := Rolled(p, w, at); failures == v.failures + 1 && successes == v.successes
    requires last == if w.None? then None else w.value.lastEpisodeAt
    ensures Verdict(p, w, Failure(at)).Some? <==> TooMany(p, failures, successes, last, at)
    ensures Verdict(p, w, Failure(at)).Some?
            <==> && p.minFailures <= failures
                 && (p.threshold + if last.Some? && at - last.value <= p.escalationMemory then p.rebreakMargin else 0.0)
                    * (failures + successes) as real <= failures as real
  {
  }

  lemma VerdictAt(p: Params, h: seq<Outcome>, k: nat)
    requires k < |h|
    ensures Verdicts(p, h)[k] == Verdict(p, State(p, h[..k]), h[k])
  {
    PrefixVerdicts(p, h, k + 1);
    assert h[..k + 1] == h[..k] + [h[k]];
  }

  /** The counts and the episode memory the gate weighs outcome `k` with. */
  lemma Weighing(p: Params, h: seq<Outcome>, k: nat)
    requires k < |h| && h[k].Failure?
    ensures var w, o := State(p, h[..k]), WindowAt(p, h, k).from;
            && Failures(h[o..k + 1]) == Rolled(p, w, h[k].at).failures + 1
            && Successes(h[o..k + 1]) == Rolled(p, w, h[k].at).successes
            && LastBreak(p, h[..k]) == (if w.None? then None else w.value.lastEpisodeAt)
  {
    WindowAround(p, h, k);
    var o := WindowAt(p, h, k).from;
    assert h[o..k + 1] == h[o..k] + [h[k]];
    SnocCounts(h[o..k], h[k]);
    if k > 0 {
      EpisodeMemory(p, h[..k]);
    }
  }

  /** A failure breaks the domain exactly when the outcomes of the window it falls in, itself included,
      hold minFailures failures at a fraction on or above the line, and the line is raised by the margin
      exactly when the previous break is within escalation memory. */
  lemma GateDecidesOnHistory(p: Params, h: seq<Outcome>, k: nat)
    requires k < |h| && h[k].Failure?
    ensures var window := h[WindowAt(p, h, k).from..k + 1];
            && 0 < Failures(window)
            && (BreaksAt(p, h, k) <==> TooManyFail(p, window, LastBreak(p, h[..k]), h[k].at))
  {
    Weighing(p, h, k);
    VerdictAt(p, h, k);
    var o := WindowAt(p, h, k).from;
    VerdictMeans(p, State(p, h[..k]), h[k].at, Failures(h[o..k + 1]), Successes(h[o..k + 1]), LastBreak(p, h[..k]));
  }

  /** A failed fraction below the threshold is never too many, however many raw failures. */
  lemma LowRate(p: Params, failures: nat, successes: nat, last: Option<int>, now: int)
    requires p.rebreakMargin >= 0.0 && failures as real < p.threshold * (failures + successes) as real
    ensures !TooMany(p, failures, successes, last, now)
  {
    var total := (failures + successes) as real;
    assert p.rebreakMargin * total >= 0.0;
    assert (p.threshold + p.rebreakMargin) * total == p.threshold * total + p.rebreakMargin * total;
  }

  /** A domain whose failed fraction stays below the threshold is never removed, however many raw
      failures its volume produces. */
  lemma LowRateNeverBreaks(p: Params, h: seq<Outcome>, k: nat, failures: nat, successes: nat)
    requires k < |h| && p.rebreakMargin >= 0.0
    requires var window := h[WindowAt(p, h, k).from..k + 1];
             failures == Failures(window) && successes == Successes(window)
    requires failures as real < p.threshold * (failures + successes) as real
    ensures !BreaksAt(p, h, k)
  {
    VerdictAt(p, h, k);
    if h[k].Failure? {
      GateDecidesOnHistory(p, h, k);
      LowRate(p, failures, successes, LastBreak(p, h[..k]), h[k].at);
    }
  }

  lemma Outweigh(threshold: real, failures: nat) returns (enough: nat)
    requires threshold > 0.0
    ensures failures as real < threshold * enough as real
  {
    var needed := failures as real / threshold;
    assert needed >= 0.0 && threshold * needed == failures as real;
    enough := needed.Floor + 1;
    Above(threshold, needed, enough as real);
  }

  lemma Above(t: real, x: real, y: real)
    requires t > 0.0 && x < y
    ensures t * x < t * y
  {
  }

  lemma Outweighed(threshold: real, failures: nat, enough: nat, f: nat, s: nat)
    requires threshold > 0.0 && failures as real < threshold * enough as real && f <= failures && enough <= s
    ensures f as real < threshold * (f + s) as real
  {
    if enough < f + s {
      Above(threshold, enough as real, (f + s) as real);
    }
  }

  lemma OutweighedWindow(p: Params, failures: nat, enough: nat, h: seq<Outcome>, k: nat, f: nat, s: nat)
    requires p.threshold > 0.0 && p.rebreakMargin >= 0.0 && failures as real < p.threshold * enough as real
    requires k < |h| && f == Failures(h[WindowAt(p, h, k).from..k + 1]) && s == Successes(h[WindowAt(p, h, k).from..k + 1])
    ensures f <= failures && enough <= s ==> !BreaksAt(p, h, k)
  {
    if f <= failures && enough <= s {
      Outweighed(p.threshold, failures, enough, f, s);
      LowRateNeverBreaks(p, h, k, f, s);
    }
  }

  /** With a positive threshold, however many failures a window holds, enough successes in it stop the
      break. */
  lemma EnoughSuccessesPreventBreak(p: Params, failures: nat) returns (enough: nat)
    requires p.threshold > 0.0 && p.rebreakMargin >= 0.0
    ensures forall h: seq<Outcome>, k: nat :: k < |h| ==>
              var window := h[WindowAt(p, h, k).from..k + 1];
              Failures(window) <= failures && enough <= Successes(window) ==> !BreaksAt(p, h, k)
  {
    enough := Outweigh(p.threshold, failures);
    forall h: seq<Outcome>, k: nat | k < |h|
      ensures var window := h[WindowAt(p, h, k).from..k + 1];
              Failures(window) <= failures && enough <= Successes(window) ==> !BreaksAt(p, h, k)
    {
      var window := h[WindowAt(p, h, k).from..k + 1];
      OutweighedWindow(p, failures, enough, h, k, Failures(window), Successes(window));
    }
  }

  lemma {:induction false} MoreOutcomesMoreFailures(a: seq<Outcome>, b: seq<Outcome>)
    ensures Failures(b) <= Failures(a + b)
  {
    if b == [] {
    } else {
      var n := |b| - 1;
      assert (a + b)[..|a + b| - 1] == a + b[..n];
      MoreOutcomesMoreFailures(a, b[..n]);
    }
  }

  /** Any two breaks of one domain are separated by at least minFailures new failures. */
  lemma BreaksAreSeparated(p: Params, h: seq<Outcome>, j: nat, k: nat)
    requires j < k < |h| && BreaksAt(p, h, j) && BreaksAt(p, h, k)
    ensures p.minFailures <= Failures(h[j + 1..k + 1])
  {
    VerdictAt(p, h, k);
    GateDecidesOnHistory(p, h, k);
    WindowAround(p, h, k);
    var o := WindowAt(p, h, k).from;
    assert j < o by {
      assert Verdicts(p, h)[..k][j] == Verdicts(p, h)[j];
    }
    assert h[j + 1..k + 1] == h[j + 1..o] + h[o..k + 1];
    MoreOutcomesMoreFailures(h[j + 1..o], h[o..k + 1]);
  }

  // ------------------------------------------------------------------ escalation

  /** `m` is the length of the longest chain of breaks ending with the last one in which successive
      breaks are at most `memory` apart. */
  ghost predicate LongestChain(memory: nat, times: seq<int>, m: nat) {
    && 1 <= m <= |times|
    && (forall i :: |times| - m < i < |times| ==> times[i] - times[i - 1] <= memory)
    && (m < |times| ==> times[|times| - m] - times[|times| - m - 1] > memory)
  }

  lemma {:induction false} HitMemory(p: Params, h: seq<Outcome>)
    requires Breaks(p, h) != []
    ensures State(p, h).Some? && LongestChain(p.escalationMemory, Breaks(p, h), State(p, h).value.lastHitCount)
  {
    var n := |h| - 1;
    var past, e := h[..n], h[n];
    assert h == past + [e];
    Snoc(p, past, e);
    if Breaks(p, past) != [] {
      HitMemory(p, past);
      EpisodeMemory(p, past);
    }
    if Verdict(p, State(p, past), e).Some? {
      if past != [] {
        EpisodeMemory(p, past);
      }
      ChainGrows(p, Breaks(p, past), State(p, past), e.at);
    }
  }

  lemma ChainGrows(p: Params, times: seq<int>, w: Option<Window>, at: int)
    requires w.Some? ==> w.value.lastEpisodeAt == if times == [] then None else Some(times[|times| - 1])
    requires times != [] ==> w.Some? && LongestChain(p.escalationMemory, times, w.value.lastHitCount)
    requires AfterFailure(p, w, at).1.Some?
    ensures LongestChain(p.escalationMemory, times + [at], AfterFailure(p, w, at).1.value)
  {
  }

  lemma LastHitCount(p: Params, h: seq<Outcome>, e: Outcome)
    requires Verdict(p, State(p, h), e).Some?
    ensures LongestChain(p.escalationMemory, Breaks(p, h + [e]), Verdict(p, State(p, h), e).value)
  {
    Snoc(p, h, e);
    HitMemory(p, h + [e]);
  }

  /** The hit count of a break is the length of the longest chain of breaks ending there. */
  lemma HitCountIsChainLength(p: Params, h: seq<Outcome>, k: nat)
    requires k < |h| && BreaksAt(p, h, k)
    ensures LongestChain(p.escalationMemory, Breaks(p, h[..k + 1]), Verdicts(p, h)[k].value)
  {
    VerdictAt(p, h, k);
    LastHitCount(p, h[..k], h[k]);
    assert h[..k + 1] == h[..k] + [h[k]];
  }

  // ------------------------------------------------------------------ time to live

  function Pow2(n: nat): nat { if n == 0 then 1 else 2 * Pow2(n - 1) }

  function EscalatedTTL(defaultTTL: nat, maxTTL: nat, hits: nat): nat {
    if hits <= 1 then defaultTTL
    else
      var shift := if hits - 1 > 5 then 5 else hits - 1;
      var ttl := defaultTTL * Pow2(shift);
      if ttl > maxTTL then maxTTL else ttl
  }

  lemma Pow2Values()
    ensures Pow2(0) == 1 && Pow2(1) == 2 && Pow2(2) == 4 && Pow2(3) == 8 && Pow2(4) == 16 && Pow2(5) == 32
  {
    assert Pow2(3) == 8;
  }

  /** The time to live never shrinks as a domain keeps breaking exactly when the base fits the cap. */
  lemma TTLMonotoneIffBaseFits(defaultTTL: nat, maxTTL: nat)
    ensures (forall a: nat, b: nat :: a <= b ==> EscalatedTTL(defaultTTL, maxTTL, a) <= EscalatedTTL(defaultTTL, maxTTL, b))
            <==> defaultTTL <= maxTTL
  {
    Pow2Values();
    if defaultTTL > maxTTL {
      assert EscalatedTTL(defaultTTL, maxTTL, 2) < EscalatedTTL(defaultTTL, maxTTL, 1);
    }
  }

  /** Each further hit doubles the time to live, up to the cap and to the sixth hit, and it always
      lies between the base and the cap. */
  lemma TTLDoublesUntilCapped(defaultTTL: nat, maxTTL: nat, hits: nat)
    requires 1 <= hits && defaultTTL <= maxTTL
    ensures defaultTTL <= EscalatedTTL(defaultTTL, maxTTL, hits) <= maxTTL
    ensures EscalatedTTL(defaultTTL, maxTTL, hits + 1)
            == if hits <= 5 then Min(2 * EscalatedTTL(defaultTTL, maxTTL, hits), maxTTL)
               else EscalatedTTL(defaultTTL, maxTTL, hits)
  {
    Pow2Values();
  }
}

/**
 The domain circuit breaker of one gateway pod (gateway/domain_circuit_breaker.go): the rate gate's
 windows, the local cache of broken domains, and its merge with what Redis holds.

 Clock readings are arguments. What other pods put into Redis is arbitrary.
 */
module CircuitBreaker {
  import opened Prelude
  import opened BreakerGate
  import opened BreakerCodec

  const SECOND: int := 1_000_000_000

  /** time.Time.Unix: whole seconds, rounded down. */
  function Unix(t: int): int { t / SECOND }

  datatype Settings = Settings(gate: Params, defaultTTL: nat, maxTTL: nat, cacheTTL: nat)

  datatype Broken = Broken(expiry: int, hits: int, reason: string)

  datatype Entry = Entry(domains: map<string, Broken>, refreshAt: int)

  datatype Breaker = Breaker(cache: map<string, Entry>, stats: Stats)

  /** What a refresh can see of the shared store. */
  datatype RedisView = LocalOnly | Unreachable | Values(vals: map<string, string>)

  function DomainsOf(b: Breaker, svc: string): map<string, Broken> {
    if svc in b.cache then b.cache[svc].domains else map[]
  }

  type Stats = map<string, map<string, Window>>

  function WindowIn(stats: Stats, svc: string, dom: string): Option<Window> {
    if svc in stats && dom in stats[svc] then Some(stats[svc][dom]) else None
  }

  function WindowOf(b: Breaker, svc: string, dom: string): Option<Window> { WindowIn(b.stats, svc, dom) }

  function StatsWith(stats: Stats, svc: string, dom: string, w: Window): Stats {
    var byDomain := if svc in stats then stats[svc] else map[];
    stats[svc := byDomain[dom := w]]
  }

  function WithWindow(b: Breaker, svc: string, dom: string, w: Window): Breaker {
    b.(stats := StatsWith(b.stats, svc, dom, w))
  }

  predicate IsBroken(b: Breaker, svc: string, dom: string, now: int) {
    dom in DomainsOf(b, svc) && DomainsOf(b, svc)[dom].expiry > now
  }

  // ------------------------------------------------------------------ marking

  /** The break MarkBroken makes, if the domain is not already broken and the gate lets it through. */
  function NewBreak(s: Settings, b: Breaker, svc: string, dom: string, reason: string, now: int): Option<Broken> {
    if IsBroken(b, svc, dom, now) then None
    else
      match AfterFailure(s.gate, WindowOf(b, svc, dom), now).1
      case None => None
      case Some(hits) => Some(Broken(now + EscalatedTTL(s.defaultTTL, s.maxTTL, hits), hits, reason))
  }

  function WithBreak(s: Settings, b: Breaker, svc: string, dom: string, k: Broken, now: int): Breaker {
    var entry := if svc in b.cache then b.cache[svc] else Entry(map[], now + s.cacheTTL);
    b.(cache := b.cache[svc := entry.(domains := entry.domains[dom := k])])
  }

  function Marked(s: Settings, b: Breaker, svc: string, dom: string, reason: string, now: int): Breaker {
    if IsBroken(b, svc, dom, now) then b
    else
      var gated := WithWindow(b, svc, dom, AfterFailure(s.gate, WindowOf(b, svc, dom), now).0);
      match NewBreak(s, b, svc, dom, reason, now)
      case None => gated
      case Some(k) => WithBreak(s, gated, svc, dom, k, now)
  }

  // ------------------------------------------------------------------ refreshing

  function Unexpired(m: map<string, Broken>, now: int): map<string, Broken> {
    map d | d in m && m[d].expiry > now :: m[d]
  }

  /** A Redis value still in force, judged in whole seconds. */
  predicate InForce(val: string, now: int) {
    ParseRedisValue(val).Some? && ParseRedisValue(val).value.expiryUnix > Unix(now)
  }

  function BreakOf(val: string): Broken
    requires ParseRedisValue(val).Some?
  {
    var r := ParseRedisValue(val).value;
    Broken(r.expiryUnix * SECOND, r.hitCount, r.reason)
  }

  function Remote(vals: map<string, string>, now: int): map<string, Broken> {
    map d | d in vals && InForce(vals[d], now) :: BreakOf(vals[d])
  }

  /** Local breaks win over remote ones only when they expire strictly later. */
  function Combined(local: map<string, Broken>, remote: map<string, Broken>): map<string, Broken> {
    map d | d in local.Keys + remote.Keys ::
      if d in local && (d in remote ==> local[d].expiry > remote[d].expiry) then local[d] else remote[d]
  }

  function Refreshed(local: map<string, Broken>, vals: map<string, string>, now: int): map<string, Broken> {
    Combined(Unexpired(local, now), Remote(vals, now))
  }

  function AfterRefresh(s: Settings, b: Breaker, svc: string, now: int, view: RedisView): Breaker {
    match view
    case Values(vals) =>
      b.(cache := b.cache[svc := Entry(Refreshed(DomainsOf(b, svc), vals, now), now + s.cacheTTL)])
    case _ =>
      if svc !in b.cache then b
      else b.(cache := b.cache[svc := Entry(Unexpired(b.cache[svc].domains, now), now + s.cacheTTL)])
  }

  predicate CacheIsFresh(b: Breaker, svc: string, now: int) {
    svc in b.cache && now < b.cache[svc].refreshAt
  }

  /** GetBrokenDomains reads the clock once for freshness and again for filtering or refreshing. */
  function AfterRead(s: Settings, b: Breaker, svc: string, now: int, later: int, view: RedisView): Breaker {
    if CacheIsFresh(b, svc, now) then b else AfterRefresh(s, b, svc, later, view)
  }

  function Cleared(b: Breaker, svc: string): Breaker {
    Breaker(b.cache - {svc}, b.stats - {svc})
  }

  // ------------------------------------------------------------------ what one refresh computes

  /** What Redis says of `d` at `now`: a well-formed value whose second has not been reached. */
  ghost predicate Theirs(vals: map<string, string>, d: string, now: int) {
    d in vals && ParseRedisValue(vals[d]).Some? && now < ParseRedisValue(vals[d]).value.expiryUnix * SECOND
  }

  /** After a refresh the cache holds exactly the union of the unexpired local breaks and the Redis
      breaks still in force, each with the later of the expiries known, all strictly in the future
      although Redis keeps whole seconds. */
  lemma RefreshIsUnionWithLaterExpiry(local: map<string, Broken>, vals: map<string, string>, now: int, d: string)
    ensures var mine := d in local && local[d].expiry > now;
            var theirs := Theirs(vals, d, now);
            var r := Refreshed(local, vals, now);
            && (d in r <==> mine || theirs)
            && (d in r ==> r[d].expiry > now)
            && (mine && theirs ==>
                  r[d].expiry == Max(local[d].expiry, ParseRedisValue(vals[d]).value.expiryUnix * SECOND))
            && (mine && !theirs ==> r[d] == local[d])
            && (theirs && !mine ==>
                  var told := ParseRedisValue(vals[d]).value;
                  r[d] == Broken(told.expiryUnix * SECOND, told.hitCount, told.reason))
  {
  }

  /** A read reports exactly the breaks this pod holds unexpired and, when its cache has gone stale and
      Redis answers, those Redis still has in force. */
  lemma ReadIsExact(s: Settings, b: Breaker, svc: string, now: int, later: int, view: RedisView, d: string)
    ensures IsBroken(AfterRead(s, b, svc, now, later, view), svc, d, later)
            <==> || IsBroken(b, svc, d, later)
                 || ((svc in b.cache ==> b.cache[svc].refreshAt <= now) && view.Values? && Theirs(view.vals, d, later))
  {
    if view.Values? {
      RefreshIsUnionWithLaterExpiry(DomainsOf(b, svc), view.vals, later, d);
    }
  }

  // ------------------------------------------------------------------ runs of one pod

  datatype Op =
    | Success(svc: string, dom: string, at: int)
    | Mark(svc: string, dom: string, reason: string, at: int)
    | Read(svc: string, at: int, later: int, view: RedisView)
    | Clear(svc: string, at: int)

  function AfterOp(s: Settings, b: Breaker, op: Op): Breaker {
    match op
    case Success(svc, dom, at) =>
      if dom == "" then b else WithWindow(b, svc, dom, AfterSuccess(s.gate, WindowOf(b, svc, dom), at))
    case Mark(svc, dom, reason, at) => Marked(s, b, svc, dom, reason, at)
    case Read(svc, at, later, view) => AfterRead(s, b, svc, at, later, view)
    case Clear(svc, _) => Cleared(b, svc)
  }

  function AfterOps(s: Settings, b: Breaker, ops: seq<Op>): Breaker
    decreases |ops|
  {
    if ops == [] then b else AfterOps(s, AfterOp(s, b, ops[0]), ops[1..])
  }

  /** No clock reading of the run is after `until`. */
  predicate AllBy(ops: seq<Op>, until: int) {
    forall i :: 0 <= i < |ops| ==>
      && ops[i].at <= until
      && (ops[i].Read? ==> ops[i].at <= ops[i].later <= until)
  }

  predicate ClearsService(ops: seq<Op>, svc: string) {
    exists i :: 0 <= i < |ops| && ops[i].Clear? && ops[i].svc == svc
  }

  /** This pod holds the break of `dom` with an expiry no earlier than `e`. */
  predicate Holds(b: Breaker, svc: string, dom: string, e: int) {
    dom in DomainsOf(b, svc) && e <= DomainsOf(b, svc)[dom].expiry
  }

  lemma OpKeepsBreak(s: Settings, b: Breaker, op: Op, svc: string, dom: string, e: int, until: int)
    requires Holds(b, svc, dom, e) && until < e && AllBy([op], until) && !ClearsService([op], svc)
    ensures Holds(AfterOp(s, b, op), svc, dom, e)
  {
    assert [op][0] == op;
    if op.Read? && op.view.Values? {
      RefreshIsUnionWithLaterExpiry(DomainsOf(b, op.svc), op.view.vals, op.later, dom);
    }
  }

  /** No sequence of marks, successes and reads, whatever Redis answers, forgets or shortens a break
      this pod knows about before it expires. Only clearing the service does. */
  lemma {:induction false} KnownBreakPersists(s: Settings, b: Breaker, ops: seq<Op>, svc: string, dom: string, e: int, until: int)
    requires Holds(b, svc, dom, e) && until < e && AllBy(ops, until) && !ClearsService(ops, svc)
    ensures Holds(AfterOps(s, b, ops), svc, dom, e)
    decreases |ops|
  {
    if ops != [] {
      var op := ops[0];
      assert [op][0] == op;
      OpKeepsBreak(s, b, op, svc, dom, e, until);
      KnownBreakPersists(s, AfterOp(s, b, op), ops[1..], svc, dom, e, until);
    }
  }

  /** A refresh at `t` was followed by no clearing of the service and no read of it after its time. */
  ghost predicate NotDueAgain(s: Settings, ops: seq<Op>, svc: string, t: int) {
    !ClearsService(ops, svc) && forall i :: 0 <= i < |ops| && ops[i].Read? && ops[i].svc == svc ==> ops[i].at < t + s.cacheTTL
  }

  lemma {:induction false} RefreshTimeStands(s: Settings, b: Breaker, ops: seq<Op>, svc: string, t: int)
    requires svc in b.cache && b.cache[svc].refreshAt == t + s.cacheTTL && NotDueAgain(s, ops, svc, t)
    ensures var b' := AfterOps(s, b, ops); svc in b'.cache && b'.cache[svc].refreshAt == t + s.cacheTTL
    decreases |ops|
  {
    if ops != [] {
      RefreshTimeStands(s, AfterOp(s, b, ops[0]), ops[1..], svc, t);
    }
  }

  /** How long another pod's break can go unnoticed. A refresh at `t` answers the reads of the next
      cacheTTL, whatever this pod marks or records meanwhile; a read at or after t + cacheTTL reports
      every break Redis then has in force. */
  lemma SharedBreakIsSeenAfterCacheTTL(s: Settings, b: Breaker, svc: string, t: int, first: RedisView, ops: seq<Op>,
                                       now: int, later: int, vals: map<string, string>, d: string)
    requires first.Values? || svc in b.cache
    requires NotDueAgain(s, ops, svc, t)
    ensures var b' := AfterOps(s, AfterRefresh(s, b, svc, t, first), ops);
            && (now < t + s.cacheTTL ==> AfterRead(s, b', svc, now, later, Values(vals)) == b')
            && (t + s.cacheTTL <= now && Theirs(vals, d, later) ==>
                  IsBroken(AfterRead(s, b', svc, now, later, Values(vals)), svc, d, later))
  {
    var b1 := AfterRefresh(s, b, svc, t, first);
    RefreshTimeStands(s, b1, ops, svc, t);
    ReadIsExact(s, AfterOps(s, b1, ops), svc, now, later, Values(vals), d);
  }

  /** A domain that breaks at `now` is in every answer until its whole time to live has passed. */
  lemma MarkedDomainIsAvoidedForItsTTL(s: Settings, b: Breaker, svc: string, dom: string, reason: string, now: int,
                                       ops: seq<Op>, at: int, later: int, view: RedisView)
    requires NewBreak(s, b, svc, dom, reason, now).Some?
    requires AllBy(ops, at) && at <= later && !ClearsService(ops, svc)
    requires later < now + EscalatedTTL(s.defaultTTL, s.maxTTL, NewBreak(s, b, svc, dom, reason, now).value.hits as nat)
    ensures IsBroken(AfterRead(s, AfterOps(s, Marked(s, b, svc, dom, reason, now), ops), svc, at, later, view), svc, dom, later)
  {
    var k := NewBreak(s, b, svc, dom, reason, now).value;
    var b' := Marked(s, b, svc, dom, reason, now);
    assert Holds(b', svc, dom, k.expiry);
    KnownBreakPersists(s, b', ops, svc, dom, k.expiry, later);
    ReadIsExact(s, AfterOps(s, b', ops), svc, at, later, view, dom);
  }

  /** Clearing is complete and local: nothing of the service is left to break, escalate or be
      reported, and no other service notices. */
  lemma ClearForgets(s: Settings, b: Breaker, svc: string, dom: string, reason: string, now: int, other: string, d: string)
    requires other != svc
    ensures var b' := Cleared(b, svc);
            && !IsBroken(b', svc, dom, now)
            && WindowOf(b', svc, dom).None?
            && (NewBreak(s, b', svc, dom, reason, now).Some? ==> NewBreak(s, b', svc, dom, reason, now).value.hits == 1)
            && DomainsOf(b', other) == DomainsOf(b, other)
            && WindowOf(b', other, d) == WindowOf(b, other, d)
  {
  }

  // ------------------------------------------------------------------ the breaker object

  /** Outcomes that entered each domain's gate since its service was last cleared. */
  type Histories = map<(string, string), seq<Outcome>>

  ghost function HistoryIn(gated: Histories, svc: string, dom: string): seq<Outcome> {
    if (svc, dom) in gated then gated[(svc, dom)] else []
  }

  /** Every window is what the gate makes of its domain's history. */
  ghost predicate Tracked(p: Params, stats: Stats, gated: Histories) {
    forall svc, dom :: WindowIn(stats, svc, dom) == State(p, HistoryIn(gated, svc, dom))
  }

  lemma TrackOutcome(p: Params, stats: Stats, gated: Histories, svc: string, dom: string, e: Outcome)
    requires Tracked(p, stats, gated)
    ensures Tracked(p, StatsWith(stats, svc, dom, AfterOutcome(p, WindowIn(stats, svc, dom), e)),
                    gated[(svc, dom) := HistoryIn(gated, svc, dom) + [e]])
  {
    Snoc(p, HistoryIn(gated, svc, dom), e);
    var w := AfterOutcome(p, WindowIn(stats, svc, dom), e);
    var h := HistoryIn(gated, svc, dom) + [e];
    assert State(p, h) == Some(w);
    TrackUpdate(p, stats, gated, svc, dom, w, h);
  }

  lemma TrackUpdate(p: Params, stats: Stats, gated: Histories, svc: string, dom: string, w: Window, h: seq<Outcome>)
    requires Tracked(p, stats, gated) && State(p, h) == Some(w)
    ensures Tracked(p, StatsWith(stats, svc, dom, w), gated[(svc, dom) := h])
  {
    var stats', gated' := StatsWith(stats, svc, dom, w), gated[(svc, dom) := h];
    forall s, d
      ensures WindowIn(stats', s, d) == State(p, HistoryIn(gated', s, d))
    {
      assert WindowIn(stats, s, d) == State(p, HistoryIn(gated, s, d));
    }
  }

  lemma TrackClear(p: Params, stats: Stats, gated: Histories, svc: string)
    requires Tracked(p, stats, gated)
    ensures Tracked(p, stats - {svc}, map k | k in gated && k.0 != svc :: gated[k])
  {
    var stats', gated' := stats - {svc}, map k | k in gated && k.0 != svc :: gated[k];
    forall s, d
      ensures WindowIn(stats', s, d) == State(p, HistoryIn(gated', s, d))
    {
      assert WindowIn(stats, s, d) == State(p, HistoryIn(gated, s, d));
    }
  }

  /** The gate's decision on the last outcome of a history. */
  lemma LastIsDecided(p: Params, h: seq<Outcome>, past: seq<Outcome>)
    requires h != [] && past == h[..|h| - 1] && h[|h| - 1].Failure?
    ensures var o := WindowAt(p, h, |past|).from;
            && 0 < Failures(h[o..])
            && (BreaksAt(p, h, |past|) <==> TooManyFail(p, h[o..], LastBreak(p, past), h[|past|].at))
  {
    GateDecidesOnHistory(p, h, |past|);
    var o := WindowAt(p, h, |past|).from;
    assert h[o..|past| + 1] == h[o..];
  }

  /** One more failure: the gate breaks exactly when too many of the outcomes in its window failed, and
      its answer is the last verdict of the longer history. */
  lemma GateAnswers(p: Params, h: seq<Outcome>, now: int)
    ensures var g := h + [Failure(now)];
            var verdict := Verdict(p, State(p, h), Failure(now));
            var o := WindowAt(p, g, |h|).from;
            && Verdicts(p, g)[|h|] == verdict
            && 0 < Failures(g[o..])
            && (verdict.Some? <==> TooManyFail(p, g[o..], LastBreak(p, h), now))
            && (verdict.Some? ==> LongestChain(p.escalationMemory, Breaks(p, g), verdict.value))
  {
    Snoc(p, h, Failure(now));
    LastIsDecided(p, h + [Failure(now)], h);
    if Verdict(p, State(p, h), Failure(now)).Some? {
      LastHitCount(p, h, Failure(now));
    }
  }

  /** The domain is not broken, and with one more failure now too many of the outcomes in its window have
      failed. */
  ghost predicate BreakIsJustified(p: Params, b: Breaker, past: seq<Outcome>, svc: string, dom: string, now: int) {
    var h := past + [Failure(now)];
    !IsBroken(b, svc, dom, now) && TooManyFail(p, h[WindowAt(p, h, |past|).from..], LastBreak(p, past), now)
  }

  /** A mark makes a new break exactly when the domain's history justifies it, for the time its place in
      the chain of breaks earns. */
  lemma NewBreakIsJustified(s: Settings, b: Breaker, past: seq<Outcome>, svc: string, dom: string, reason: string, now: int)
    requires WindowOf(b, svc, dom) == State(s.gate, past)
    ensures var k := NewBreak(s, b, svc, dom, reason, now);
            && (k.Some? <==> BreakIsJustified(s.gate, b, past, svc, dom, now))
            && (k.Some? ==> BreakEarned(s, past + [Failure(now)], k.value, reason, now))
  {
    GateAnswers(s.gate, past, now);
  }

  ghost predicate BreakEarned(s: Settings, h: seq<Outcome>, k: Broken, reason: string, now: int) {
    && k.hits >= 1 && LongestChain(s.gate.escalationMemory, Breaks(s.gate, h), k.hits)
    && k.expiry == now + EscalatedTTL(s.defaultTTL, s.maxTTL, k.hits) && k.reason == reason
  }

  lemma MarkedKeepsOrAdds(s: Settings, b: Breaker, svc: string, dom: string, reason: string, now: int)
    ensures var k, b' := NewBreak(s, b, svc, dom, reason, now), Marked(s, b, svc, dom, reason, now);
            if k.Some? then dom in DomainsOf(b', svc) && DomainsOf(b', svc)[dom] == k.value else b'.cache == b.cache
  {
  }

  /** What a mark does to the cache: nothing unless the history justifies a break, and then the domain is
      broken for what it has earned. */
  lemma MarkBreaksIffJustified(s: Settings, b: Breaker, past: seq<Outcome>, svc: string, dom: string, reason: string, now: int)
    requires WindowOf(b, svc, dom) == State(s.gate, past)
    ensures var b' := Marked(s, b, svc, dom, reason, now);
            if BreakIsJustified(s.gate, b, past, svc, dom, now)
            then dom in DomainsOf(b', svc) && BreakEarned(s, past + [Failure(now)], DomainsOf(b', svc)[dom], reason, now)
            else b'.cache == b.cache
  {
    NewBreakIsJustified(s, b, past, svc, dom, reason, now);
    MarkedKeepsOrAdds(s, b, svc, dom, reason, now);
  }

  class DomainCircuitBreaker {
    const settings: Settings
    const shared: bool
    var cache: map<string, Entry>
    var stats: Stats

    ghost var gated: Histories

    ghost function History(svc: string, dom: string): seq<Outcome>
      reads this`gated
    {
      HistoryIn(gated, svc, dom)
    }

    function Model(): Breaker
      reads this
    {
      Breaker(cache, stats)
    }

    ghost predicate Valid()
      reads this`stats, this`gated
    {
      Tracked(settings.gate, stats, gated)
    }

    constructor (settings: Settings, shared: bool)
      ensures Valid() && this.settings == settings && this.shared == shared
      ensures Model() == Breaker(map[], map[]) && gated == map[]
    {
      this.settings, this.shared := settings, shared;
      cache, stats, gated := map[], map[], map[];
    }

    /** Store the window of one domain; `e` is the outcome that produced it. */
    method SetWindow(svc: string, dom: string, w: Window, ghost e: Outcome)
      requires Valid() && w == AfterOutcome(settings.gate, WindowIn(stats, svc, dom), e)
      modifies this`stats, this`gated
      ensures Valid() && stats == StatsWith(old(stats), svc, dom, w)
      ensures gated == old(gated)[(svc, dom) := old(History(svc, dom)) + [e]]
    {
      TrackOutcome(settings.gate, stats, gated, svc, dom, e);
      stats := StatsWith(stats, svc, dom, w);
      gated := gated[(svc, dom) := History(svc, dom) + [e]];
    }

    method RecordSuccess(svc: string, dom: string, now: int)
      requires Valid()
      modifies this`stats, this`gated
      ensures Valid() && Model() == AfterOp(settings, old(Model()), Op.Success(svc, dom, now))
      ensures gated == if dom == "" then old(gated)
                       else old(gated)[(svc, dom) := old(History(svc, dom)) + [Outcome.Success(now)]]
    {
      if dom == "" {
        return;
      }
      SetWindow(svc, dom, AfterSuccess(settings.gate, WindowIn(stats, svc, dom), now), Outcome.Success(now));
    }

    /** Count one failure against the domain and say whether its history now justifies removing it. */
    method ShouldBreak(svc: string, dom: string, now: int) returns (breakIt: bool, hits: nat)
      requires Valid()
      modifies this`stats, this`gated
      ensures Valid()
      ensures gated == old(gated)[(svc, dom) := old(History(svc, dom)) + [Failure(now)]]
      ensures stats == StatsWith(old(stats), svc, dom, AfterFailure(settings.gate, WindowIn(old(stats), svc, dom), now).0)
      ensures AfterFailure(settings.gate, WindowIn(old(stats), svc, dom), now).1 == if breakIt then Some(hits) else None
      ensures var h, past := History(svc, dom), old(History(svc, dom));
              breakIt <==> TooManyFail(settings.gate, h[WindowAt(settings.gate, h, |past|).from..],
                                       LastBreak(settings.gate, past), now)
      ensures breakIt ==> LongestChain(settings.gate.escalationMemory, Breaks(settings.gate, History(svc, dom)), hits)
    {
      var (w, verdict) := AfterFailure(settings.gate, WindowIn(stats, svc, dom), now);
      ghost var h := History(svc, dom);
      GateAnswers(settings.gate, h, now);
      SetWindow(svc, dom, w, Failure(now));
      breakIt, hits := verdict.Some?, if verdict.Some? then verdict.value else 0;
    }

    ghost predicate Justified(svc: string, dom: string, now: int)
      reads this
    {
      BreakIsJustified(settings.gate, Model(), History(svc, dom), svc, dom, now)
    }

    /** Returns the value written to Redis, when a new break is made and a store is configured. */
    method MarkBroken(svc: string, dom: string, reason: string, now: int) returns (write: Option<string>)
      requires Valid()
      modifies this
      ensures Valid() && Model() == Marked(settings, old(Model()), svc, dom, reason, now)
      ensures gated == if IsBroken(old(Model()), svc, dom, now) then old(gated)
                       else old(gated)[(svc, dom) := old(History(svc, dom)) + [Failure(now)]]
      ensures old(Justified(svc, dom, now)) <==> NewBreak(settings, old(Model()), svc, dom, reason, now).Some?
      ensures write == match NewBreak(settings, old(Model()), svc, dom, reason, now)
                       case Some(k) => if shared then Some(RedisValue(Record(Unix(k.expiry), k.hits, reason))) else None
                       case None => None
    {
      write := None;
      if svc in cache && dom in cache[svc].domains && cache[svc].domains[dom].expiry > now {
        return;
      }
      var breakIt, hits := ShouldBreak(svc, dom, now);
      if !breakIt {
        return;
      }
      write := Publish(svc, dom, now + EscalatedTTL(settings.defaultTTL, settings.maxTTL, hits), hits, reason, now);
    }

    /** Put a new break in the cache, and say what to write to Redis. */
    method Publish(svc: string, dom: string, expiry: int, hits: nat, reason: string, now: int) returns (write: Option<string>)
      modifies this`cache
      ensures Model() == WithBreak(settings, old(Model()), svc, dom, Broken(expiry, hits, reason), now)
      ensures dom in DomainsOf(Model(), svc) && DomainsOf(Model(), svc)[dom] == Broken(expiry, hits, reason)
      ensures write == if shared then Some(RedisValue(Record(Unix(expiry), hits, reason))) else None
    {
      var entry := if svc in cache then cache[svc] else Entry(map[], now + settings.cacheTTL);
      cache := cache[svc := entry.(domains := entry.domains[dom := Broken(expiry, hits, reason)])];
      write := None;
      if shared {
        write := Some(RedisValue(Record(Unix(expiry), hits, reason)));
      }
    }

    /** The domains of `svc` to avoid, refreshing the cache when it is stale. */
    method GetBrokenDomains(svc: string, now: int, later: int, view: RedisView) returns (broken: set<string>)
      requires Valid()
      modifies this`cache
      ensures Valid() && Model() == AfterRead(settings, old(Model()), svc, now, later, view)
      ensures forall d :: d in broken <==> IsBroken(Model(), svc, d, later)
      ensures var stale := svc in old(cache) ==> old(cache)[svc].refreshAt <= now;
              forall d :: d in broken <==> || IsBroken(old(Model()), svc, d, later)
                                           || (stale && view.Values? && Theirs(view.vals, d, later))
    {
      forall d {
        ReadIsExact(settings, Model(), svc, now, later, view, d);
      }
      if svc in cache && now < cache[svc].refreshAt {
        broken := FilterExpiredDomains(cache[svc].domains, later);
        return;
      }
      match view {
        case Values(vals) => broken := RefreshFromRedis(svc, vals, later);
        case _ => broken := RefreshLocal(svc, later);
      }
    }

    static method FilterExpiredDomains(domains: map<string, Broken>, now: int) returns (result: set<string>)
      ensures forall d :: d in result <==> d in domains && domains[d].expiry > now
    {
      result := {};
      var rest := domains.Keys;
      while rest != {}
        invariant rest <= domains.Keys
        invariant forall d :: d in result <==> d in domains && d !in rest && domains[d].expiry > now
        decreases rest
      {
        var d :| d in rest;
        if domains[d].expiry > now {
          result := result + {d};
        }
        rest := rest - {d};
      }
    }

    method RefreshLocal(svc: string, now: int) returns (broken: set<string>)
      requires Valid()
      modifies this`cache
      ensures Valid() && Model() == AfterRefresh(settings, old(Model()), svc, now, Unreachable)
      ensures forall d :: d in broken <==> IsBroken(Model(), svc, d, now)
    {
      if svc !in cache {
        return {};
      }
      var domains := cache[svc].domains;
      var kept, rest := domains, domains.Keys;
      while rest != {}
        invariant rest <= kept.Keys <= domains.Keys
        invariant forall d :: d in kept <==> d in domains && (d in rest || domains[d].expiry > now)
        invariant forall d :: d in kept ==> kept[d] == domains[d]
        decreases rest
      {
        var d :| d in rest;
        if domains[d].expiry <= now {
          kept := kept - {d};
        }
        rest := rest - {d};
      }
      assert kept == Unexpired(domains, now);
      cache := cache[svc := Entry(kept, now + settings.cacheTTL)];
      broken := kept.Keys;
    }

    method RefreshFromRedis(svc: string, vals: map<string, string>, now: int) returns (broken: set<string>)
      requires Valid()
      modifies this`cache
      ensures Valid() && Model() == AfterRefresh(settings, old(Model()), svc, now, Values(vals))
      ensures forall d :: d in broken <==> IsBroken(Model(), svc, d, now)
    {
      var domains := ParseAll(vals, now);
      var local := if svc in cache then cache[svc].domains else map[];
      domains := MergeLocal(domains, local, now);
      forall d | d in domains
        ensures domains[d].expiry > now
      {
        RefreshIsUnionWithLaterExpiry(local, vals, now, d);
      }
      cache := cache[svc := Entry(domains, now + settings.cacheTTL)];
      broken := domains.Keys;
    }

    static method ParseAll(vals: map<string, string>, now: int) returns (domains: map<string, Broken>)
      ensures domains == Remote(vals, now)
    {
      domains := map[];
      var rest := vals.Keys;
      while rest != {}
        invariant rest <= vals.Keys
        invariant forall d :: d in domains <==> d in vals && d !in rest && InForce(vals[d], now)
        invariant forall d :: d in domains ==> domains[d] == BreakOf(vals[d])
        decreases rest
      {
        var d :| d in rest;
        var parsed := ParseRedisValue(vals[d]);
        if parsed.Some? && parsed.value.expiryUnix > Unix(now) {
          domains := domains[d := Broken(parsed.value.expiryUnix * SECOND, parsed.value.hitCount, parsed.value.reason)];
        }
        rest := rest - {d};
      }
    }

    static method MergeLocal(remote: map<string, Broken>, local: map<string, Broken>, now: int)
      returns (domains: map<string, Broken>)
      ensures domains == Combined(Unexpired(local, now), remote)
    {
      domains := remote;
      var rest := local.Keys;
      ghost var goal := Combined(Unexpired(local, now), remote);
      while rest != {}
        invariant rest <= local.Keys
        invariant forall d :: d in rest ==> (d in domains <==> d in remote) && (d in remote ==> domains[d] == remote[d])
        invariant forall d :: d !in rest ==> (d in domains <==> d in goal) && (d in goal ==> domains[d] == goal[d])
        decreases rest
      {
        var d :| d in rest;
        if local[d].expiry > now && (d in domains ==> local[d].expiry > domains[d].expiry) {
          domains := domains[d := local[d]];
        }
        rest := rest - {d};
      }
    }

    method ClearService(svc: string) returns (count: nat)
      requires Valid()
      modifies this
      ensures Valid() && Model() == Cleared(old(Model()), svc)
      ensures count == |DomainsOf(old(Model()), svc)|
      ensures forall s, d :: History(s, d) == if s == svc then [] else old(History(s, d))
    {
      count := if svc in cache then |cache[svc].domains| else 0;
      cache := cache - {svc};
      stats := stats - {svc};
      gated := map k | k in gated && k.0 != svc :: gated[k];
      TrackClear(settings.gate, old(stats), old(gated), svc);
    }
  }
}

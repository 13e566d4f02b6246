/**
 The retry loop of one batch item (gateway/http_request_context_handle_request.go,
 processSinglePayloadWithRetry): rotation away from tried endpoints and operators, one optional hedge
 race on the first attempt, and the budget for capability failures.

 What the session, the quality filters, the reputation ranking and the suppliers answer on each
 attempt is arbitrary, except that the ranking picks from the list it is given or picks nothing.
 */
module RetryLoop {
  import opened Prelude

  type Endpoint = string

  const CAPABILITY_BUDGET: nat := 2

  /** Success, a failure that only says the endpoint lacks a capability, or any other failure. */
  datatype Verdict = Success | Capability | Fault

  /** What the hedge race did: whether the hedge ran and against which endpoint, whether any response
      came back, and the verdict on it. */
  datatype Race = Race(hedgeEndpoint: Endpoint, hedgeRan: bool, answered: bool, verdict: Verdict)

  datatype Environment = Environment(
    requestGone: bool,
    available: seq<Endpoint>,
    validated: seq<Endpoint>,
    pick: seq<Endpoint> -> Endpoint,
    builds: bool,
    race: Race,
    reply: Verdict)

  /** Host name and registrable domain of an endpoint's URL; empty when there is none. */
  datatype Naming = Naming(host: Endpoint -> string, operator: Endpoint -> string)

  /** The retry settings an item runs under, and the size of the batch it belongs to. */
  datatype RetryConfig = RetryConfig(enabled: bool, maxRetries: int, hedgeDelay: int, hedgeMaxBatchSize: int, batchSize: nat)

  function MaxAttempts(c: RetryConfig): nat {
    if c.enabled && c.maxRetries > 0 then c.maxRetries + 1 else 1
  }

  /** Hedging is on when a delay is set and the batch is not over the size it is suppressed at. */
  predicate Hedges(c: RetryConfig) {
    c.hedgeDelay > 0 && !(c.hedgeMaxBatchSize > 0 && c.batchSize > c.hedgeMaxBatchSize)
  }

  /** One attempt that got as far as selecting an endpoint, and which pass of the loop made it, counted
      from zero. `contacted` are the endpoints its relays went to, in order; `hedge` is the one a rejected
      race rules out. No verdict: its context could not be built. */
  datatype Attempt = Attempt(number: nat, endpoint: Endpoint, contacted: seq<Endpoint>, hedge: Option<Endpoint>,
                             verdict: Option<Verdict>)

  datatype Final = Delivered | Failed | Dropped

  function Relays(log: seq<Attempt>): nat {
    if log == [] then 0 else Relays(log[..|log| - 1]) + |log[|log| - 1].contacted|
  }

  /** How many attempts ended with a given verdict. */
  function Verdicts(log: seq<Attempt>, v: Verdict): nat {
    if log == [] then 0
    else Verdicts(log[..|log| - 1], v) + if log[|log| - 1].verdict == Some(v) then 1 else 0
  }

  lemma Snoc(log: seq<Attempt>, a: Attempt, v: Verdict)
    ensures Relays(log + [a]) == Relays(log) + |a.contacted|
    ensures Verdicts(log + [a], v) == Verdicts(log, v) + if a.verdict == Some(v) then 1 else 0
  {
    assert (log + [a])[..|log|] == log;
  }

  // ------------------------------------------------------------------ filtering

  predicate Eligible(n: Naming, ep: Endpoint, tried: set<Endpoint>, domains: set<string>) {
    ep !in tried && n.host(ep) !in domains && n.operator(ep) !in domains
  }

  function Filtered(n: Naming, eps: seq<Endpoint>, tried: set<Endpoint>, domains: set<string>): seq<Endpoint> {
    if eps == [] then []
    else if Eligible(n, eps[0], tried, domains) then [eps[0]] + Filtered(n, eps[1..], tried, domains)
    else Filtered(n, eps[1..], tried, domains)
  }

  lemma {:induction false} FilteredMembers(n: Naming, eps: seq<Endpoint>, tried: set<Endpoint>, domains: set<string>, ep: Endpoint)
    ensures ep in Filtered(n, eps, tried, domains)
            <==> ep in eps && ep !in tried && n.host(ep) !in domains && n.operator(ep) !in domains
  {
    if eps != [] {
      FilteredMembers(n, eps[1..], tried, domains, ep);
      assert ep in eps <==> ep == eps[0] || ep in eps[1..];
    }
  }

  /** filterEndpoints: drops tried endpoints, and endpoints whose host or operator is excluded, in order. */
  method FilterEndpoints(n: Naming, available: seq<Endpoint>, tried: set<Endpoint>, domains: set<string>)
    returns (filtered: seq<Endpoint>)
    ensures filtered == Filtered(n, available, tried, domains)
  {
    filtered := [];
    for i := 0 to |available|
      invariant filtered + Filtered(n, available[i..], tried, domains) == Filtered(n, available, tried, domains)
    {
      var ep := available[i];
      assert available[i..][1..] == available[i + 1..];
      if ep in tried {
        continue;
      }
      if domains != {} {
        if n.host(ep) in domains || n.operator(ep) in domains {
          continue;
        }
      }
      filtered := filtered + [ep];
    }
  }

  /** The endpoints an attempt chooses from: the validated ones when there are any. */
  function Candidates(e: Environment): seq<Endpoint> {
    if e.validated != [] then e.validated else e.available
  }

  // ------------------------------------------------------------------ what a run of the loop promises

  /** No endpoint twice, no operator twice, and nothing whose host or operator was broken at the start. */
  ghost predicate Rotates(n: Naming, broken: set<string>, log: seq<Attempt>) {
    && (forall i, j :: 0 <= i < j < |log| ==> log[i].endpoint != log[j].endpoint)
    && (forall i, j :: 0 <= i < j < |log| && n.operator(log[i].endpoint) != "" ==>
          n.operator(log[i].endpoint) != n.operator(log[j].endpoint))
    && (forall i :: 0 <= i < |log| ==> n.host(log[i].endpoint) !in broken && n.operator(log[i].endpoint) !in broken)
  }

  /** A hedge whose answer was rejected is not tried again, nor is its operator. */
  ghost predicate AvoidsHedge(n: Naming, log: seq<Attempt>) {
    forall i, j :: 0 <= i < j < |log| && log[i].hedge.Some? && log[i].hedge.value != "" ==>
      && log[j].endpoint != log[i].hedge.value
      && (n.operator(log[i].hedge.value) != "" ==> n.operator(log[j].endpoint) != n.operator(log[i].hedge.value))
  }

  /** A success ends the loop, and so does the second capability failure: nothing follows either. */
  ghost predicate StopsInTime(log: seq<Attempt>) {
    && Verdicts(log, Capability) <= CAPABILITY_BUDGET
    && (log != [] ==> Undecided(log[..|log| - 1]))
  }

  ghost predicate Undecided(log: seq<Attempt>) {
    Verdicts(log, Success) == 0 && Verdicts(log, Capability) < CAPABILITY_BUDGET
  }

  ghost predicate PicksFromList(e: Environment) {
    forall eps :: eps != [] ==> e.pick(eps) in eps || e.pick(eps) == ""
  }

  // ------------------------------------------------------------------ loop invariant

  ghost predicate Covers(n: Naming, tried: set<Endpoint>, domains: set<string>, ep: Endpoint) {
    ep in tried && (n.operator(ep) != "" ==> n.operator(ep) in domains)
  }

  /** Everything selected so far, and every rejected hedge, is excluded from now on. */
  ghost predicate Excluded(n: Naming, broken: set<string>, log: seq<Attempt>, tried: set<Endpoint>, domains: set<string>) {
    && broken <= domains
    && (forall i :: 0 <= i < |log| ==> Covers(n, tried, domains, log[i].endpoint))
    && (forall i :: 0 <= i < |log| && log[i].hedge.Some? && log[i].hedge.value != "" ==>
          Covers(n, tried, domains, log[i].hedge.value))
  }

  lemma RotationGoesOn(n: Naming, broken: set<string>, log: seq<Attempt>, tried: set<Endpoint>, domains: set<string>, a: Attempt)
    requires Excluded(n, broken, log, tried, domains) && Eligible(n, a.endpoint, tried, domains)
    requires Rotates(n, broken, log) && AvoidsHedge(n, log)
    ensures Rotates(n, broken, log + [a]) && AvoidsHedge(n, log + [a])
  {
    var log' := log + [a];
    forall i | 0 <= i < |log|
      ensures log'[i].endpoint != a.endpoint
      ensures n.operator(log'[i].endpoint) != "" ==> n.operator(log'[i].endpoint) != n.operator(a.endpoint)
    {
      assert log'[i] == log[i] && Covers(n, tried, domains, log[i].endpoint);
    }
    HedgeAvoided(n, broken, log, tried, domains, a);
  }

  lemma HedgeAvoided(n: Naming, broken: set<string>, log: seq<Attempt>, tried: set<Endpoint>, domains: set<string>, a: Attempt)
    requires Excluded(n, broken, log, tried, domains) && Eligible(n, a.endpoint, tried, domains) && AvoidsHedge(n, log)
    ensures AvoidsHedge(n, log + [a])
  {
    var log' := log + [a];
    forall i | 0 <= i < |log| && log[i].hedge.Some? && log[i].hedge.value != ""
      ensures a.endpoint != log'[i].hedge.value
      ensures n.operator(log'[i].hedge.value) != "" ==> n.operator(a.endpoint) != n.operator(log'[i].hedge.value)
    {
      assert log'[i] == log[i] && Covers(n, tried, domains, log[i].hedge.value);
    }
  }

  lemma ExclusionGrows(n: Naming, broken: set<string>, log: seq<Attempt>, tried: set<Endpoint>, domains: set<string>, a: Attempt,
                       tried': set<Endpoint>, domains': set<string>)
    requires Excluded(n, broken, log, tried, domains) && tried <= tried' && domains <= domains'
    requires Covers(n, tried', domains', a.endpoint)
    requires a.hedge.Some? && a.hedge.value != "" ==> Covers(n, tried', domains', a.hedge.value)
    ensures Excluded(n, broken, log + [a], tried', domains')
  {
    var log' := log + [a];
    forall i | 0 <= i < |log'|
      ensures Covers(n, tried', domains', log'[i].endpoint)
      ensures log'[i].hedge.Some? && log'[i].hedge.value != "" ==> Covers(n, tried', domains', log'[i].hedge.value)
    {
      if i < |log| {
        assert log'[i] == log[i] && Covers(n, tried, domains, log[i].endpoint);
      }
    }
  }

  // ------------------------------------------------------------------ the loop

  function MarkDomainTried(n: Naming, domains: set<string>, ep: Endpoint): set<string> {
    if n.operator(ep) != "" then domains + {n.operator(ep)} else domains
  }

  /** The endpoints an attempt takes out of the running, and the domains it adds. */
  function Spent(a: Attempt): set<Endpoint> {
    if a.hedge.Some? && a.hedge.value != "" then {a.endpoint, a.hedge.value} else {a.endpoint}
  }

  function Marked(n: Naming, domains: set<string>, a: Attempt): set<string> {
    var d := MarkDomainTried(n, domains, a.endpoint);
    if a.hedge.Some? && a.hedge.value != "" then MarkDomainTried(n, d, a.hedge.value) else d
  }

  ghost function TriedBy(log: seq<Attempt>): set<Endpoint> {
    if log == [] then {} else TriedBy(log[..|log| - 1]) + Spent(log[|log| - 1])
  }

  ghost function DomainsBy(n: Naming, broken: set<string>, log: seq<Attempt>): set<string> {
    if log == [] then broken else Marked(n, DomainsBy(n, broken, log[..|log| - 1]), log[|log| - 1])
  }

  /** The attempt these surroundings make of a selected endpoint: the race's answer if there is a race and
      it is answered, else the plain reply; and every endpoint either contacts. */
  function Outcome(e: Environment, number: nat, selected: Endpoint, race: bool): (a: Attempt)
    ensures |a.contacted| <= (if race then 3 else 1)
  {
    var raced := race && e.race.answered;
    if !e.builds then Attempt(number, selected, [], None, None)
    else
      Attempt(number, selected,
              (if !race then [] else if e.race.hedgeRan then [selected, e.race.hedgeEndpoint] else [selected])
              + (if raced then [] else [selected]),
              if raced && e.race.verdict != Success then Some(e.race.hedgeEndpoint) else None,
              Some(if raced then e.race.verdict else e.reply))
  }

  /** One attempt against a selected endpoint: the hedge race when it is due, and the plain request
      unless the race was answered. At most one relay without a race and three with one. */
  method Send(e: Environment, number: nat, selected: Endpoint, race: bool) returns (a: Attempt)
    ensures a == Outcome(e, number, selected, race)
    ensures a.number == number && a.endpoint == selected && a.verdict == DecidingReply(e, race)
    ensures ContactsOf(e, race, a) && HedgeOf(e, race, a)
    ensures |a.contacted| <= (if race then 3 else 1)
    ensures forall i :: 0 <= i < |a.contacted| ==> a.contacted[i] == selected || (race && a.contacted[i] == e.race.hedgeEndpoint)
  {
    if !e.builds {
      return Attempt(number, selected, [], None, None);
    }
    var contacted := [];
    if race {
      contacted := if e.race.hedgeRan then [selected, e.race.hedgeEndpoint] else [selected];
      if e.race.answered {
        var hedge := if e.race.verdict == Success then None else Some(e.race.hedgeEndpoint);
        return Attempt(number, selected, contacted, hedge, Some(e.race.verdict));
      }
    }
    a := Attempt(number, selected, contacted + [selected], None, Some(e.reply));
  }

  /** The reply that decides an attempt: none when its context was not built, the race's when it raced and
      was answered, by the hedge or by the primary, and the plain reply otherwise. */
  ghost function DecidingReply(e: Environment, race: bool): Option<Verdict> {
    if !e.builds then None else if race && e.race.answered then Some(e.race.verdict) else Some(e.reply)
  }

  /** Who is contacted, in order: nobody without a context; the selected endpoint, and the hedge if it
      ran, by a race; the selected endpoint by the plain request, which an answered race replaces. */
  ghost predicate ContactsOf(e: Environment, race: bool, a: Attempt) {
    && (!e.builds ==> a.contacted == [])
    && (e.builds && !race ==> a.contacted == [a.endpoint])
    && (e.builds && race && e.race.hedgeRan ==>
          a.contacted == [a.endpoint, e.race.hedgeEndpoint] + if e.race.answered then [] else [a.endpoint])
    && (e.builds && race && !e.race.hedgeRan ==>
          a.contacted == [a.endpoint] + if e.race.answered then [] else [a.endpoint])
  }

  /** The hedge to avoid is that of a race whose answer was rejected. */
  ghost predicate HedgeOf(e: Environment, race: bool, a: Attempt) {
    a.hedge == if e.builds && race && e.race.answered && e.race.verdict != Success then Some(e.race.hedgeEndpoint) else None
  }

  lemma OutcomeMeans(e: Environment, number: nat, selected: Endpoint, race: bool)
    ensures var a := Outcome(e, number, selected, race);
            && a.number == number && a.endpoint == selected
            && a.verdict == DecidingReply(e, race) && ContactsOf(e, race, a) && HedgeOf(e, race, a)
  {
  }

  /** The promises a log has kept so far, and what makes the next attempt keep them. */
  ghost predicate Going(n: Naming, broken: set<string>, log: seq<Attempt>, tried: set<Endpoint>, domains: set<string>) {
    Rotates(n, broken, log) && AvoidsHedge(n, log) && Excluded(n, broken, log, tried, domains)
  }

  /** What is left to choose from after a log of attempts. */
  ghost function Choices(n: Naming, broken: set<string>, e: Environment, log: seq<Attempt>): seq<Endpoint> {
    Filtered(n, Candidates(e), TriedBy(log), DomainsBy(n, broken, log))
  }

  /** The ranking's pick, or the first of the list when it has none. */
  function Chosen(e: Environment, choices: seq<Endpoint>): Endpoint
    requires choices != []
  {
    if e.pick(choices) == "" then choices[0] else e.pick(choices)
  }

  /** Filter, then take the ranking's pick, or the first survivor when it has none. */
  method Select(n: Naming, e: Environment, tried: set<Endpoint>, domains: set<string>)
    returns (selected: Option<Endpoint>, alternatives: bool)
    requires PicksFromList(e)
    ensures selected.None? <==> Filtered(n, Candidates(e), tried, domains) == []
    ensures selected.Some? ==> selected.value == Chosen(e, Filtered(n, Candidates(e), tried, domains))
    ensures selected.Some? ==> selected.value in Candidates(e) && Eligible(n, selected.value, tried, domains)
    ensures alternatives <==> |Filtered(n, Candidates(e), tried, domains)| > 1
  {
    var filtered := FilterEndpoints(n, Candidates(e), tried, domains);
    if filtered == [] {
      return None, false;
    }
    var pick := e.pick(filtered);
    selected, alternatives := Some(if pick == "" then filtered[0] else pick), |filtered| > 1;
    FilteredMembers(n, Candidates(e), tried, domains, selected.value);
  }

  /** An eligible attempt keeps the promises, and what it leaves behind makes the next one keep them. */
  lemma GoesOn(n: Naming, broken: set<string>, log: seq<Attempt>, tried: set<Endpoint>, domains: set<string>, a: Attempt)
    requires Going(n, broken, log, tried, domains) && Eligible(n, a.endpoint, tried, domains)
    ensures Going(n, broken, log + [a], tried + Spent(a), Marked(n, domains, a))
  {
    RotationGoesOn(n, broken, log, tried, domains, a);
    ExclusionGrows(n, broken, log, tried, domains, a, tried + Spent(a), Marked(n, domains, a));
  }

  /** Nothing the first attempt could choose from survives the broken set. */
  predicate AllBroken(n: Naming, e: Environment, broken: set<string>) {
    !e.requestGone && e.available != [] && Filtered(n, Candidates(e), {}, broken) == []
  }

  /** The loop's variables, and how it ended once it has. */
  datatype Loop = Loop(
    attempt: nat,
    log: seq<Attempt>,
    tried: set<Endpoint>,
    domains: set<string>,
    capabilityFailures: nat,
    final: Option<Final>)

  /** The passes below `used` that were offered anything. */
  ghost function Offered(env: seq<Environment>, used: nat): seq<nat>
    requires used <= |env|
  {
    if used == 0 then []
    else Offered(env, used - 1) + if env[used - 1].available != [] then [used - 1] else []
  }

  ghost function Numbers(log: seq<Attempt>): seq<nat> {
    if log == [] then [] else Numbers(log[..|log| - 1]) + [log[|log| - 1].number]
  }

  /** After `log`, attempt `a` is the one its pass makes: what its surroundings make of the choice among
      what is left, with a race only on the first pass. */
  ghost predicate Follows(c: RetryConfig, n: Naming, broken: set<string>, env: seq<Environment>, log: seq<Attempt>, a: Attempt) {
    && a.number < |env|
    && var e := env[a.number]; var choices := Choices(n, broken, e, log);
       choices != [] && a == Outcome(e, a.number, Chosen(e, choices), a.number == 0 && Hedges(c) && |choices| > 1)
  }

  ghost predicate Played(c: RetryConfig, n: Naming, broken: set<string>, env: seq<Environment>, log: seq<Attempt>) {
    log == []
    || (Played(c, n, broken, env, log[..|log| - 1]) && Follows(c, n, broken, env, log[..|log| - 1], log[|log| - 1]))
  }

  /** Why an item may fail after `used` passes: they were all there are, the request is gone, a second
      supplier lacked the capability, or there is nothing left to choose from. */
  ghost predicate MayFail(c: RetryConfig, n: Naming, broken: set<string>, env: seq<Environment>, log: seq<Attempt>, used: nat) {
    || (used >= 1 && (c.enabled ==> used > c.maxRetries))
    || Verdicts(log, Capability) == CAPABILITY_BUDGET
    || (used < |env| && env[used].requestGone)
    || (0 < used < |env| && env[used].available != [] && Choices(n, broken, env[used], log) == [])
  }

  /** Every pass so far is accounted for. */
  ghost predicate Accounted(c: RetryConfig, n: Naming, broken: set<string>, env: seq<Environment>, log: seq<Attempt>, used: nat) {
    && used <= |env| && Numbers(log) == Offered(env, used) && Played(c, n, broken, env, log)
    && forall k :: 0 <= k < used ==> !env[k].requestGone
  }

  /** What the loop excludes is what its log has spent. */
  ghost predicate Excludes(n: Naming, broken: set<string>, st: Loop) {
    st.tried == TriedBy(st.log) && st.domains == DomainsBy(n, broken, st.log)
  }

  ghost predicate History(c: RetryConfig, n: Naming, broken: set<string>, env: seq<Environment>, st: Loop) {
    && st.attempt >= 1 && Accounted(c, n, broken, env, st.log, st.attempt - 1)
    && Excludes(n, broken, st)
    && (st.final == Some(Failed) ==> MayFail(c, n, broken, env, st.log, st.attempt - 1))
  }

  lemma AccountedAfterAttempt(c: RetryConfig, n: Naming, broken: set<string>, env: seq<Environment>, log: seq<Attempt>, used: nat, a: Attempt)
    requires Accounted(c, n, broken, env, log, used) && used < |env| && a.number == used
    requires !env[used].requestGone && env[used].available != [] && Follows(c, n, broken, env, log, a)
    ensures Accounted(c, n, broken, env, log + [a], used + 1)
  {
    assert (log + [a])[..|log|] == log;
    OfferedNext(env, used);
  }

  lemma OfferedNext(env: seq<Environment>, used: nat)
    requires used < |env|
    ensures Offered(env, used + 1) == Offered(env, used) + if env[used].available != [] then [used] else []
  {
  }

  lemma AccountedWithoutOffer(c: RetryConfig, n: Naming, broken: set<string>, env: seq<Environment>, log: seq<Attempt>, used: nat)
    requires Accounted(c, n, broken, env, log, used) && used < |env|
    requires !env[used].requestGone && env[used].available == []
    ensures Accounted(c, n, broken, env, log, used + 1)
  {
    OfferedNext(env, used);
  }

  ghost predicate Budget(c: RetryConfig, st: Loop) {
    && 1 <= st.attempt <= MaxAttempts(c) + 1
    && |st.log| < st.attempt
    && Relays(st.log) <= st.attempt - 1 + (if Hedges(c) then 2 else 0)
    && st.capabilityFailures == Verdicts(st.log, Capability)
    && StopsInTime(st.log)
    && (st.final.None? ==> Undecided(st.log))
    && (st.final == Some(Delivered) <==> Verdicts(st.log, Success) == 1)
  }

  ghost predicate Exclusion(n: Naming, broken: set<string>, first: Environment, st: Loop) {
    && Going(n, broken, st.log, st.tried, st.domains)
    && (st.attempt == 1 ==> st.tried == {} && st.domains == broken)
    && (if st.attempt == 1 then st.final == Some(Dropped) ==> AllBroken(n, first, broken)
        else st.final != Some(Dropped) && !AllBroken(n, first, broken))
    && (st.final == Some(Failed) ==> !AllBroken(n, first, broken))
  }

  lemma BudgetAfterAttempt(c: RetryConfig, st: Loop, a: Attempt, st': Loop)
    requires Budget(c, st) && st.final.None? && st.attempt <= MaxAttempts(c)
    requires |a.contacted| <= if st.attempt == 1 && Hedges(c) then 3 else 1
    requires st'.attempt == st.attempt + 1 && st'.log == st.log + [a]
    requires st'.capabilityFailures == st.capabilityFailures + if a.verdict == Some(Capability) then 1 else 0
    requires st'.final == if a.verdict == Some(Success) then Some(Delivered)
                          else if st'.capabilityFailures >= CAPABILITY_BUDGET then Some(Failed) else None
    ensures Budget(c, st')
  {
    Snoc(st.log, a, Capability);
    Snoc(st.log, a, Success);
    assert st'.log[..|st.log|] == st.log;
    if st.attempt == 1 {
      assert st.log == [];
    }
  }

  /** The loop's variables after an attempt. */
  function Advanced(n: Naming, st: Loop, a: Attempt): Loop {
    var failures := st.capabilityFailures + if a.verdict == Some(Capability) then 1 else 0;
    Loop(st.attempt + 1, st.log + [a], st.tried + Spent(a), Marked(n, st.domains, a), failures,
         if a.verdict == Some(Success) then Some(Delivered)
         else if failures >= CAPABILITY_BUDGET then Some(Failed) else None)
  }

  /** What a pass comes to: the request is gone, nothing is available, nothing is left to choose from, or
      an attempt. */
  datatype Turn = Gone | Skipped | Stuck | Made(a: Attempt)

  function TurnOf(c: RetryConfig, n: Naming, e: Environment, st: Loop): Turn
    requires st.attempt >= 1
  {
    var choices := Filtered(n, Candidates(e), st.tried, st.domains);
    if e.requestGone then Gone
    else if e.available == [] then Skipped
    else if choices == [] then Stuck
    else Made(Outcome(e, st.attempt - 1, Chosen(e, choices), st.attempt == 1 && Hedges(c) && |choices| > 1))
  }

  /** The loop's variables after a pass. */
  function Passed(n: Naming, st: Loop, turn: Turn): Loop {
    match turn
    case Gone => st.(final := Some(Failed))
    case Skipped => st.(attempt := st.attempt + 1)
    case Stuck => st.(final := Some(if st.attempt == 1 then Dropped else Failed))
    case Made(a) => Advanced(n, st, a)
  }

  /** One pass of the loop. */
  method Iterate(c: RetryConfig, n: Naming, e: Environment, st: Loop) returns (st': Loop)
    requires st.attempt >= 1 && PicksFromList(e)
    ensures st' == Passed(n, st, TurnOf(c, n, e, st))
    ensures st'.attempt == st.attempt || st'.attempt == st.attempt + 1
    ensures |st'.log| == |st.log| || (|st'.log| == |st.log| + 1 && st'.log[|st.log|].endpoint in Candidates(e))
  {
    if e.requestGone {
      return st.(final := Some(Failed));
    }
    if e.available == [] {
      return st.(attempt := st.attempt + 1);
    }
    var selected, alternatives := Select(n, e, st.tried, st.domains);
    if selected.None? {
      return st.(final := Some(if st.attempt == 1 then Dropped else Failed));
    }
    st' := Attempted(c, n, e, st, selected.value, alternatives);
  }

  /** The part of a pass that follows the selection of an endpoint. */
  method Attempted(c: RetryConfig, n: Naming, e: Environment, st: Loop, selected: Endpoint, alternatives: bool) returns (st': Loop)
    requires st.attempt >= 1
    ensures st' == Advanced(n, st, Outcome(e, st.attempt - 1, selected, st.attempt == 1 && Hedges(c) && alternatives))
    ensures selected in st'.tried && st.tried <= st'.tried && st.domains <= st'.domains
    ensures !Eligible(n, selected, st'.tried, st'.domains)
    ensures st'.final == Some(Delivered) <==> st'.log[|st.log|].verdict == Some(Success)
    ensures st'.final == Some(Failed) ==> st'.capabilityFailures >= CAPABILITY_BUDGET
  {
    var a := Send(e, st.attempt - 1, selected, st.attempt == 1 && Hedges(c) && alternatives);
    var tried, domains := st.tried + {selected}, MarkDomainTried(n, st.domains, selected);
    if a.hedge.Some? && a.hedge.value != "" {
      tried, domains := tried + {a.hedge.value}, MarkDomainTried(n, domains, a.hedge.value);
    }
    var failures := st.capabilityFailures;
    if a.verdict == Some(Capability) {
      failures := failures + 1;
    }
    var final := if a.verdict == Some(Success) then Some(Delivered)
                 else if failures >= CAPABILITY_BUDGET then Some(Failed) else None;
    st' := Loop(st.attempt + 1, st.log + [a], tried, domains, failures, final);
  }

  // ------------------------------------------------------------------ what every pass keeps

  lemma PassKeepsBudget(c: RetryConfig, n: Naming, st: Loop, turn: Turn)
    requires Budget(c, st) && st.final.None? && st.attempt <= MaxAttempts(c)
    requires turn.Made? ==> |turn.a.contacted| <= if st.attempt == 1 && Hedges(c) then 3 else 1
    ensures Budget(c, Passed(n, st, turn))
  {
    if turn.Made? {
      BudgetAfterAttempt(c, st, turn.a, Advanced(n, st, turn.a));
    }
  }

  lemma PassKeepsExclusion(n: Naming, broken: set<string>, first: Environment, st: Loop, turn: Turn)
    requires Exclusion(n, broken, first, st) && st.final.None? && st.attempt >= 1
    requires st.attempt == 1 ==> (turn.Stuck? <==> AllBroken(n, first, broken))
    requires turn.Made? ==> Eligible(n, turn.a.endpoint, st.tried, st.domains)
    ensures Exclusion(n, broken, first, Passed(n, st, turn))
  {
    if turn.Made? {
      GoesOn(n, broken, st.log, st.tried, st.domains, turn.a);
    }
  }

  /** The turn is the one pass `used` of these surroundings takes after `log`. */
  ghost predicate Due(c: RetryConfig, n: Naming, broken: set<string>, env: seq<Environment>, log: seq<Attempt>, used: nat, turn: Turn)
    requires used < |env|
  {
    && (turn.Gone? <==> env[used].requestGone)
    && (!turn.Gone? ==> (turn.Skipped? <==> env[used].available == []))
    && (turn.Stuck? ==> Choices(n, broken, env[used], log) == [])
    && (turn.Made? ==> turn.a.number == used && Follows(c, n, broken, env, log, turn.a))
  }

  /** The log and the number of passes after a turn. */
  function LogAfter(log: seq<Attempt>, turn: Turn): seq<Attempt> { if turn.Made? then log + [turn.a] else log }

  function UsedAfter(used: nat, turn: Turn): nat { if turn.Made? || turn.Skipped? then used + 1 else used }

  lemma TurnKeepsAccount(c: RetryConfig, n: Naming, broken: set<string>, env: seq<Environment>, log: seq<Attempt>, used: nat, turn: Turn)
    requires used < |env| && Accounted(c, n, broken, env, log, used) && Due(c, n, broken, env, log, used, turn)
    ensures Accounted(c, n, broken, env, LogAfter(log, turn), UsedAfter(used, turn))
  {
    if turn.Skipped? {
      AccountedWithoutOffer(c, n, broken, env, log, used);
    } else if turn.Made? {
      AccountedAfterAttempt(c, n, broken, env, log, used, turn.a);
    }
  }

  lemma TurnKeepsExcludes(n: Naming, broken: set<string>, st: Loop, turn: Turn)
    requires Excludes(n, broken, st)
    ensures Excludes(n, broken, Passed(n, st, turn))
  {
    if turn.Made? {
      SnocExclusions(n, broken, st.log, turn.a);
    }
  }

  lemma TurnMayFail(c: RetryConfig, n: Naming, broken: set<string>, env: seq<Environment>, st: Loop, turn: Turn)
    requires st.final.None? && 1 <= st.attempt <= |env| && Due(c, n, broken, env, st.log, st.attempt - 1, turn)
    requires st.capabilityFailures == Verdicts(st.log, Capability) < CAPABILITY_BUDGET
    requires Passed(n, st, turn).final == Some(Failed)
    ensures MayFail(c, n, broken, env, Passed(n, st, turn).log, Passed(n, st, turn).attempt - 1)
  {
    if turn.Made? {
      Snoc(st.log, turn.a, Capability);
    }
  }

  lemma PassKeepsAccount(c: RetryConfig, n: Naming, broken: set<string>, env: seq<Environment>, st: Loop, turn: Turn)
    requires 1 <= st.attempt <= |env| && Accounted(c, n, broken, env, st.log, st.attempt - 1)
    requires Due(c, n, broken, env, st.log, st.attempt - 1, turn)
    ensures Passed(n, st, turn).attempt >= 1
    ensures Accounted(c, n, broken, env, Passed(n, st, turn).log, Passed(n, st, turn).attempt - 1)
  {
    TurnKeepsAccount(c, n, broken, env, st.log, st.attempt - 1, turn);
    assert Passed(n, st, turn).log == LogAfter(st.log, turn);
    assert Passed(n, st, turn).attempt - 1 == UsedAfter(st.attempt - 1, turn);
  }

  lemma {:induction false} PassKeepsHistory(c: RetryConfig, n: Naming, broken: set<string>, env: seq<Environment>, st: Loop, turn: Turn)
    requires History(c, n, broken, env, st) && st.final.None? && 1 <= st.attempt <= |env|
    requires st.capabilityFailures == Verdicts(st.log, Capability) < CAPABILITY_BUDGET
    requires Due(c, n, broken, env, st.log, st.attempt - 1, turn)
    ensures History(c, n, broken, env, Passed(n, st, turn))
  {
    PassKeepsAccount(c, n, broken, env, st, turn);
    TurnKeepsExcludes(n, broken, st, turn);
    if Passed(n, st, turn).final == Some(Failed) {
      TurnMayFail(c, n, broken, env, st, turn);
    }
  }

  lemma TurnIsDue(c: RetryConfig, n: Naming, broken: set<string>, env: seq<Environment>, st: Loop)
    requires 1 <= st.attempt <= |env| && Excludes(n, broken, st)
    ensures Due(c, n, broken, env, st.log, st.attempt - 1, TurnOf(c, n, env[st.attempt - 1], st))
  {
  }

  lemma TurnFits(c: RetryConfig, n: Naming, e: Environment, st: Loop)
    requires st.attempt >= 1 && PicksFromList(e)
    ensures Fits(c, n, st, TurnOf(c, n, e, st))
  {
    var choices := Filtered(n, Candidates(e), st.tried, st.domains);
    if choices != [] {
      FilteredMembers(n, Candidates(e), st.tried, st.domains, Chosen(e, choices));
    }
  }

  lemma SnocExclusions(n: Naming, broken: set<string>, log: seq<Attempt>, a: Attempt)
    ensures TriedBy(log + [a]) == TriedBy(log) + Spent(a)
    ensures DomainsBy(n, broken, log + [a]) == Marked(n, DomainsBy(n, broken, log), a)
  {
    assert (log + [a])[..|log|] == log;
  }

  ghost predicate LoopInv(c: RetryConfig, n: Naming, broken: set<string>, env: seq<Environment>, st: Loop) {
    env != [] && Budget(c, st) && Exclusion(n, broken, env[0], st) && History(c, n, broken, env, st)
  }

  /** An attempt is on an eligible endpoint and takes no more relays than its pass allows. */
  ghost predicate Fits(c: RetryConfig, n: Naming, st: Loop, turn: Turn) {
    turn.Made? ==> Eligible(n, turn.a.endpoint, st.tried, st.domains)
                   && |turn.a.contacted| <= if st.attempt == 1 && Hedges(c) then 3 else 1
  }

  /** The first pass is stuck exactly when everything on offer was already broken. */
  lemma FirstTurn(c: RetryConfig, n: Naming, broken: set<string>, env: seq<Environment>, turn: Turn)
    requires env != [] && Due(c, n, broken, env, [], 0, turn)
    ensures turn.Stuck? <==> AllBroken(n, env[0], broken)
  {
    assert Choices(n, broken, env[0], []) == Filtered(n, Candidates(env[0]), {}, broken);
  }

  lemma {:induction false} PassKeepsInv(c: RetryConfig, n: Naming, broken: set<string>, env: seq<Environment>, st: Loop, turn: Turn)
    requires LoopInv(c, n, broken, env, st) && st.final.None? && st.attempt <= MaxAttempts(c)
    requires st.attempt <= |env| && Due(c, n, broken, env, st.log, st.attempt - 1, turn) && Fits(c, n, st, turn)
    ensures LoopInv(c, n, broken, env, Passed(n, st, turn))
  {
    if st.attempt == 1 {
      assert st.log == [];
      FirstTurn(c, n, broken, env, turn);
    }
    PassKeepsBudget(c, n, st, turn);
    PassKeepsExclusion(n, broken, env[0], st, turn);
    PassKeepsHistory(c, n, broken, env, st, turn);
  }

  lemma NextPassKeepsInv(c: RetryConfig, n: Naming, broken: set<string>, env: seq<Environment>, st: Loop)
    requires LoopInv(c, n, broken, env, st) && st.final.None? && 1 <= st.attempt <= MaxAttempts(c)
    requires st.attempt <= |env| && PicksFromList(env[st.attempt - 1])
    ensures LoopInv(c, n, broken, env, Passed(n, st, TurnOf(c, n, env[st.attempt - 1], st)))
  {
    TurnFits(c, n, env[st.attempt - 1], st);
    TurnIsDue(c, n, broken, env, st);
    PassKeepsInv(c, n, broken, env, st, TurnOf(c, n, env[st.attempt - 1], st));
  }

  lemma StartsInv(c: RetryConfig, n: Naming, broken: set<string>, env: seq<Environment>)
    requires env != []
    ensures LoopInv(c, n, broken, env, Loop(1, [], {}, broken, 0, None))
  {
  }

  /** How an item may end: delivered exactly when one attempt succeeded, dropped exactly when everything on
      offer at the first pass was already broken, and failed only when it may. */
  ghost predicate Ends(c: RetryConfig, n: Naming, broken: set<string>, env: seq<Environment>, final: Final, log: seq<Attempt>, used: nat)
    requires env != []
  {
    && (final == Delivered <==> Verdicts(log, Success) == 1)
    && (final == Dropped <==> AllBroken(n, env[0], broken))
    && (final == Failed ==> MayFail(c, n, broken, env, log, used))
  }

  /** What a log promises: no endpoint or operator twice, nothing after the end, and a bound on relays. */
  ghost predicate Promises(c: RetryConfig, n: Naming, broken: set<string>, log: seq<Attempt>) {
    && Rotates(n, broken, log) && AvoidsHedge(n, log) && StopsInTime(log)
    && |log| <= MaxAttempts(c) && Relays(log) <= MaxAttempts(c) + (if Hedges(c) then 2 else 0)
  }

  function FinalOf(st: Loop): Final { if st.final.Some? then st.final.value else Failed }

  /** What the invariant says of the loop's end. */
  lemma EndMeans(c: RetryConfig, n: Naming, broken: set<string>, env: seq<Environment>, st: Loop)
    requires LoopInv(c, n, broken, env, st) && (st.final.Some? || st.attempt > MaxAttempts(c))
    ensures 0 <= st.attempt - 1 <= MaxAttempts(c) && Accounted(c, n, broken, env, st.log, st.attempt - 1)
    ensures Ends(c, n, broken, env, FinalOf(st), st.log, st.attempt - 1)
    ensures Promises(c, n, broken, st.log)
  {
  }

  /** One batch item; `env[k]` is what pass k of the loop meets. `log` holds the attempts that selected
      an endpoint, in order, and `used` is how many passes were made. The log is exactly what those
      passes make of what they met. The item is delivered exactly when one attempt, the last, succeeded,
      and fails only when it may. It ends with neither a response nor an error exactly when everything on
      offer at the first pass was already broken. */
  method ProcessPayload(c: RetryConfig, n: Naming, broken: set<string>, env: seq<Environment>)
    returns (final: Final, log: seq<Attempt>, used: nat)
    requires MaxAttempts(c) <= |env| && forall k :: 0 <= k < |env| ==> PicksFromList(env[k])
    ensures used <= MaxAttempts(c) && Accounted(c, n, broken, env, log, used)
    ensures Promises(c, n, broken, log) && Ends(c, n, broken, env, final, log, used)
    ensures FaithfulLog(c, n, broken, env, log)
    ensures final == Delivered <==> LastReply(c, n, broken, env, log) == Some(Success)
    ensures used > 1 ==> c.enabled && used <= c.maxRetries + 1
  {
    var st := RunPasses(c, n, broken, env);
    EndMeans(c, n, broken, env, st);
    final, log, used := FinalOf(st), st.log, st.attempt - 1;
    EndIsFaithful(c, n, broken, env, final, log, used);
  }

  /** The loop itself, until an attempt or a pass ends it or the passes are used up. */
  method RunPasses(c: RetryConfig, n: Naming, broken: set<string>, env: seq<Environment>) returns (st: Loop)
    requires MaxAttempts(c) <= |env| && forall k :: 0 <= k < |env| ==> PicksFromList(env[k])
    ensures LoopInv(c, n, broken, env, st) && (st.final.Some? || st.attempt > MaxAttempts(c))
  {
    st := Loop(1, [], {}, broken, 0, None);
    StartsInv(c, n, broken, env);
    while st.final.None? && st.attempt <= MaxAttempts(c)
      invariant LoopInv(c, n, broken, env, st)
      decreases st.final.None?, MaxAttempts(c) + 1 - st.attempt
    {
      NextPassKeepsInv(c, n, broken, env, st);
      st := Iterate(c, n, env[st.attempt - 1], st);
    }
  }

  // ------------------------------------------------------------------ what the log says, attempt by attempt

  /** The attempt selected `ep`, or raced it as a hedge whose answer was rejected. */
  ghost predicate Took(a: Attempt, ep: Endpoint) {
    ep == a.endpoint || (a.hedge == Some(ep) && ep != "")
  }

  /** `d` is the operator of an endpoint the attempt took. */
  ghost predicate TookOperator(n: Naming, a: Attempt, d: string) {
    d != "" && (d == n.operator(a.endpoint) || (a.hedge.Some? && a.hedge.value != "" && d == n.operator(a.hedge.value)))
  }

  lemma {:induction false} TriedIsTaken(log: seq<Attempt>, ep: Endpoint)
    ensures ep in TriedBy(log) <==> exists i :: 0 <= i < |log| && Took(log[i], ep)
    decreases |log|
  {
    if log != [] {
      var m := |log| - 1;
      TriedIsTaken(log[..m], ep);
      assert forall i :: 0 <= i < m ==> log[..m][i] == log[i];
      assert ep in Spent(log[m]) <==> Took(log[m], ep);
    }
  }

  lemma {:induction false} DomainsAreTaken(n: Naming, broken: set<string>, log: seq<Attempt>, d: string)
    ensures d in DomainsBy(n, broken, log) <==> d in broken || exists i :: 0 <= i < |log| && TookOperator(n, log[i], d)
    decreases |log|
  {
    if log != [] {
      var m := |log| - 1;
      DomainsAreTaken(n, broken, log[..m], d);
      assert forall i :: 0 <= i < m ==> log[..m][i] == log[i];
    }
  }

  /** An endpoint open to the attempt after `log`: on offer, validated if any is; its host and operator
      neither broken at the start nor the operator of one taken before; and not itself taken before. */
  ghost predicate Open(n: Naming, broken: set<string>, e: Environment, log: seq<Attempt>, ep: Endpoint) {
    && ep in (if e.validated == [] then e.available else e.validated)
    && n.host(ep) !in broken && n.operator(ep) !in broken
    && forall i :: 0 <= i < |log| ==>
         !Took(log[i], ep) && !TookOperator(n, log[i], n.host(ep)) && !TookOperator(n, log[i], n.operator(ep))
  }

  lemma ChoicesAreOpen(n: Naming, broken: set<string>, e: Environment, log: seq<Attempt>, ep: Endpoint)
    ensures ep in Choices(n, broken, e, log) <==> Open(n, broken, e, log, ep)
  {
    FilteredMembers(n, Candidates(e), TriedBy(log), DomainsBy(n, broken, log), ep);
    TriedIsTaken(log, ep);
    DomainsAreTaken(n, broken, log, n.host(ep));
    DomainsAreTaken(n, broken, log, n.operator(ep));
  }

  /** A race is due on the first pass when a hedge delay is set, the batch is no larger than hedging is
      allowed for, and there is an alternative to race. */
  ghost predicate RaceDue(c: RetryConfig, number: nat, choices: seq<Endpoint>) {
    && number == 0 && |choices| > 1
    && c.hedgeDelay > 0 && (c.hedgeMaxBatchSize <= 0 || c.batchSize <= c.hedgeMaxBatchSize)
  }

  /** Attempt `a`, made after `log`: on the ranking's pick among the endpoints open to it, or the first of
      them when it has none, and decided by the reply that decides. */
  ghost predicate Faithful(c: RetryConfig, n: Naming, broken: set<string>, env: seq<Environment>, log: seq<Attempt>, a: Attempt) {
    && a.number < |env|
    && var e := env[a.number]; var choices := Choices(n, broken, e, log);
       && (forall ep :: ep in choices <==> Open(n, broken, e, log, ep))
       && choices != [] && a.endpoint == (if e.pick(choices) != "" then e.pick(choices) else choices[0])
       && a.verdict == DecidingReply(e, RaceDue(c, a.number, choices))
       && ContactsOf(e, RaceDue(c, a.number, choices), a) && HedgeOf(e, RaceDue(c, a.number, choices), a)
  }

  lemma AttemptIsFaithful(c: RetryConfig, n: Naming, broken: set<string>, env: seq<Environment>, log: seq<Attempt>, a: Attempt)
    requires Follows(c, n, broken, env, log, a)
    ensures Faithful(c, n, broken, env, log, a)
  {
    var e := env[a.number];
    var choices := Choices(n, broken, e, log);
    forall ep
      ensures ep in choices <==> Open(n, broken, e, log, ep)
    {
      ChoicesAreOpen(n, broken, e, log, ep);
    }
    OutcomeMeans(e, a.number, Chosen(e, choices), RaceDue(c, a.number, choices));
  }

  ghost predicate FaithfulLog(c: RetryConfig, n: Naming, broken: set<string>, env: seq<Environment>, log: seq<Attempt>) {
    forall i :: 0 <= i < |log| ==> Faithful(c, n, broken, env, log[..i], log[i])
  }

  /** Every attempt of an accounted log is faithful to what its pass met. */
  lemma LogIsFaithful(c: RetryConfig, n: Naming, broken: set<string>, env: seq<Environment>, log: seq<Attempt>, used: nat)
    requires Accounted(c, n, broken, env, log, used)
    ensures FaithfulLog(c, n, broken, env, log)
  {
    forall i | 0 <= i < |log|
      ensures Faithful(c, n, broken, env, log[..i], log[i])
    {
      PlayedAt(c, n, broken, env, log, i);
      AttemptIsFaithful(c, n, broken, env, log[..i], log[i]);
    }
  }

  /** A log that stops in time holds a success exactly when its last attempt is one. */
  lemma LastSucceeds(log: seq<Attempt>)
    requires StopsInTime(log)
    ensures Verdicts(log, Success) == 1 <==> log != [] && log[|log| - 1].verdict == Some(Success)
  {
  }

  /** The reply that decides the last attempt of a log. */
  ghost function LastReply(c: RetryConfig, n: Naming, broken: set<string>, env: seq<Environment>, log: seq<Attempt>): Option<Verdict> {
    if log == [] || log[|log| - 1].number >= |env| then None
    else
      var before, a := log[..|log| - 1], log[|log| - 1];
      DecidingReply(env[a.number], RaceDue(c, a.number, Choices(n, broken, env[a.number], before)))
  }

  lemma LastReplyDecides(c: RetryConfig, n: Naming, broken: set<string>, env: seq<Environment>, log: seq<Attempt>)
    requires FaithfulLog(c, n, broken, env, log)
    ensures log != [] ==> log[|log| - 1].verdict == LastReply(c, n, broken, env, log)
  {
    if log != [] {
      assert Faithful(c, n, broken, env, log[..|log| - 1], log[|log| - 1]);
    }
  }

  /** An item is delivered exactly when the reply that decides its last attempt is a success. */
  lemma EndIsFaithful(c: RetryConfig, n: Naming, broken: set<string>, env: seq<Environment>, final: Final, log: seq<Attempt>, used: nat)
    requires env != [] && Accounted(c, n, broken, env, log, used) && StopsInTime(log) && Ends(c, n, broken, env, final, log, used)
    ensures FaithfulLog(c, n, broken, env, log)
    ensures final == Delivered <==> LastReply(c, n, broken, env, log) == Some(Success)
  {
    LogIsFaithful(c, n, broken, env, log, used);
    LastReplyDecides(c, n, broken, env, log);
    LastSucceeds(log);
  }

  // ------------------------------------------------------------------ no endpoint contacted twice

  /** Some endpoint got two relays, in one attempt or in two. */
  ghost predicate ContactedTwice(log: seq<Attempt>) {
    || (exists i, p, q :: 0 <= i < |log| && 0 <= p < q < |log[i].contacted| && log[i].contacted[p] == log[i].contacted[q])
    || (exists i, j, p, q :: 0 <= i < j < |log| && 0 <= p < |log[i].contacted| && 0 <= q < |log[j].contacted|
                             && log[i].contacted[p] == log[j].contacted[q])
  }

  /** The first pass ran a hedge race that brought no response. */
  ghost predicate UnansweredRace(c: RetryConfig, n: Naming, broken: set<string>, env: seq<Environment>, log: seq<Attempt>) {
    && log != [] && env != [] && log[0].number == 0
    && RaceDue(c, 0, Choices(n, broken, env[0], [])) && env[0].builds && !env[0].race.answered
  }

  lemma {:induction false} PlayedAt(c: RetryConfig, n: Naming, broken: set<string>, env: seq<Environment>, log: seq<Attempt>, i: nat)
    requires Played(c, n, broken, env, log) && i < |log|
    ensures Follows(c, n, broken, env, log[..i], log[i])
    decreases |log|
  {
    if i < |log| - 1 {
      PlayedAt(c, n, broken, env, log[..|log| - 1], i);
      assert log[..|log| - 1][..i] == log[..i];
    }
  }

  lemma {:induction false} NumberAt(log: seq<Attempt>, i: nat)
    requires i < |log|
    ensures |Numbers(log)| == |log| && Numbers(log)[i] == log[i].number
    decreases |log|
  {
    var n := |log| - 1;
    if i < n {
      NumberAt(log[..n], i);
    } else if n > 0 {
      NumberAt(log[..n], 0);
    }
  }

  lemma {:induction false} OfferedAt(env: seq<Environment>, used: nat, i: nat)
    requires used <= |env| && i < |Offered(env, used)|
    ensures |Offered(env, used)| <= used && i <= Offered(env, used)[i]
    decreases used
  {
    if used > 0 {
      var before := Offered(env, used - 1);
      if i < |before| {
        OfferedAt(env, used - 1, i);
      } else if before != [] {
        OfferedAt(env, used - 1, 0);
      }
    }
  }

  lemma {:induction false} VerdictCounts(log: seq<Attempt>, i: nat, v: Verdict)
    requires i < |log| && log[i].verdict == Some(v)
    ensures Verdicts(log, v) >= 1
    decreases |log|
  {
    if i < |log| - 1 {
      VerdictCounts(log[..|log| - 1], i, v);
    }
  }

  /** After the first pass an attempt contacts its own endpoint or nobody. */
  lemma LaterContacts(c: RetryConfig, n: Naming, broken: set<string>, env: seq<Environment>, log: seq<Attempt>, used: nat, i: nat)
    requires Accounted(c, n, broken, env, log, used) && 0 < i < |log|
    ensures OwnEndpoint(log[i])
  {
    PlayedAt(c, n, broken, env, log, i);
    NumberAt(log, i);
    OfferedAt(env, used, i);
  }

  /** What the first attempt contacts: twice the same endpoint exactly when it raced without an answer. */
  lemma FirstContacts(c: RetryConfig, n: Naming, broken: set<string>, env: seq<Environment>, log: seq<Attempt>, used: nat)
    requires Accounted(c, n, broken, env, log, used) && log != []
    ensures env != [] && UnansweredRace(c, n, broken, env, log) ==>
              |log[0].contacted| >= 2 && log[0].contacted[0] == log[0].contacted[|log[0].contacted| - 1]
    ensures !UnansweredRace(c, n, broken, env, log) ==>
              || log[0].contacted == [] || log[0].contacted == [log[0].endpoint]
              || (log[0].contacted == [log[0].endpoint, env[0].race.hedgeEndpoint] && log[0].verdict == Some(env[0].race.verdict)
                  && env[0].race.hedgeRan
                  && (log[0].verdict != Some(Success) ==> log[0].hedge == Some(env[0].race.hedgeEndpoint)))
  {
    PlayedAt(c, n, broken, env, log, 0);
    assert log[..0] == [];
  }

  /** No endpoint, hedges included, is contacted twice for one item, unless the first pass ran a hedge
      race that brought no response, and then one always is: the endpoint selected for it. A hedge is
      taken to differ from the endpoint selected, as its selection ensures. */
  lemma ContactedTwiceIffUnanswered(c: RetryConfig, n: Naming, broken: set<string>, env: seq<Environment>, log: seq<Attempt>, used: nat)
    requires Accounted(c, n, broken, env, log, used) && Rotates(n, broken, log) && AvoidsHedge(n, log) && StopsInTime(log)
    requires log != [] && env[0].race.hedgeRan ==> env[0].race.hedgeEndpoint != "" && env[0].race.hedgeEndpoint != log[0].endpoint
    ensures ContactedTwice(log) <==> UnansweredRace(c, n, broken, env, log)
  {
    if log != [] {
      if UnansweredRace(c, n, broken, env, log) {
        FirstContacts(c, n, broken, env, log, used);
        Repeats(log);
      } else {
        RestIsElsewhere(c, n, broken, env, log, used);
        NoRepeats(n, broken, log);
      }
    }
  }

  lemma Repeats(log: seq<Attempt>)
    requires log != [] && |log[0].contacted| >= 2 && log[0].contacted[0] == log[0].contacted[|log[0].contacted| - 1]
    ensures ContactedTwice(log)
  {
  }

  lemma RestIsElsewhere(c: RetryConfig, n: Naming, broken: set<string>, env: seq<Environment>, log: seq<Attempt>, used: nat)
    requires Accounted(c, n, broken, env, log, used) && Rotates(n, broken, log) && AvoidsHedge(n, log) && StopsInTime(log)
    requires log != [] && !UnansweredRace(c, n, broken, env, log)
    requires env[0].race.hedgeRan ==> env[0].race.hedgeEndpoint != "" && env[0].race.hedgeEndpoint != log[0].endpoint
    ensures forall p, q :: 0 <= p < q < |log[0].contacted| ==> log[0].contacted[p] != log[0].contacted[q]
    ensures forall i :: 0 < i < |log| ==> OwnEndpoint(log[i]) && log[i].endpoint !in log[0].contacted
  {
    FirstContacts(c, n, broken, env, log, used);
    forall i | 0 < i < |log|
      ensures OwnEndpoint(log[i]) && log[i].endpoint !in log[0].contacted
    {
      LaterContacts(c, n, broken, env, log, used, i);
      FirstIsAvoided(n, broken, log, i, env[0].race.hedgeEndpoint);
    }
  }

  predicate OwnEndpoint(a: Attempt) { a.contacted == [] || a.contacted == [a.endpoint] }

  lemma NoRepeats(n: Naming, broken: set<string>, log: seq<Attempt>)
    requires log != [] && Rotates(n, broken, log)
    requires forall p, q :: 0 <= p < q < |log[0].contacted| ==> log[0].contacted[p] != log[0].contacted[q]
    requires forall i :: 0 < i < |log| ==> OwnEndpoint(log[i]) && log[i].endpoint !in log[0].contacted
    ensures !ContactedTwice(log)
  {
    forall i, j, p, q | 0 <= i < j < |log| && 0 <= p < |log[i].contacted| && 0 <= q < |log[j].contacted|
      ensures log[i].contacted[p] != log[j].contacted[q]
    {
      assert OwnEndpoint(log[j]) && log[j].contacted[q] == log[j].endpoint;
      if i > 0 {
        assert OwnEndpoint(log[i]) && log[i].contacted[p] == log[i].endpoint;
      }
    }
    forall i | 0 < i < |log|
      ensures |log[i].contacted| <= 1
    {
      assert OwnEndpoint(log[i]);
    }
  }

  lemma FirstIsAvoided(n: Naming, broken: set<string>, log: seq<Attempt>, i: nat, hedge: Endpoint)
    requires Rotates(n, broken, log) && AvoidsHedge(n, log) && StopsInTime(log) && 0 < i < |log|
    ensures log[0].endpoint != log[i].endpoint && log[0].verdict != Some(Success)
    ensures log[0].hedge == Some(hedge) && hedge != "" ==> hedge != log[i].endpoint
  {
    if log[0].verdict == Some(Success) {
      VerdictCounts(log[..|log| - 1], 0, Success);
    }
  }
}

/**
 Leader election over one Redis key (gateway/health_check_leader.go).

 Any number of gateway instances talk to one Redis server over a network that delays and loses
 commands and replies. A command takes effect at the instant the server executes it; the caller
 learns the outcome later, or never. Time is one integer clock in nanoseconds.
 */
module LeaderElection {
  import opened Prelude

  const SECOND: int := 1_000_000_000

  type InstanceId = string

  /** Durations of the deployment. `callTimeout` bounds how long a Redis call can stay unresolved. */
  datatype Config = Config(leaseDuration: nat, renewInterval: nat, callTimeout: nat)

  /** The lease Redis is asked for: the configured duration truncated to whole seconds. */
  function Lease(c: Config): nat { c.leaseDuration / SECOND * SECOND }

  // ------------------------------------------------------------------ the Redis key

  datatype Key = Absent | Held(owner: InstanceId, expiresAt: Option<int>)

  /** A key whose expiry has been reached no longer exists for any command. */
  predicate Live(key: Key, now: int) {
    key.Held? && (key.expiresAt.Some? ==> now < key.expiresAt.value)
  }

  datatype Op = Acquire | Renew | Release

  /** One atomic server-side command: the new key and the integer reply, 1 read as true.
      Redis reads a zero expiry as "no expiry" on SET and as "delete now" on EXPIRE. */
  function Serve(lease: nat, key: Key, op: Op, id: InstanceId, now: int): (r: (Key, bool)) {
    var mine := Live(key, now) && key.owner == id;
    match op
    case Acquire =>
      if Live(key, now) then (key, false)
      else (Held(id, if lease == 0 then None else Some(now + lease)), true)
    case Renew =>
      if mine then (if lease == 0 then Absent else Held(id, Some(now + lease)), true)
      else (key, false)
    case Release =>
      if mine then (Absent, true) else (key, false)
  }

  // ------------------------------------------------------------------ instances and the network

  datatype Call = Call(id: nat, sentAt: int)

  /** `grantedAt` is the server time of the success that last set the flag; `ticked` says that an
      attempt of the ticker's has followed the one Start makes itself. */
  datatype Instance = Instance(
    running: bool,
    isLeader: bool,
    pending: Option<Call>,
    ticked: bool,
    lastBegin: int,
    idleSince: int,
    grantedAt: Option<int>,
    releasing: Option<nat>)

  datatype Request = Request(id: nat, from: InstanceId, op: Op)

  datatype Reply = Reply(id: nat, ok: bool, at: int)

  datatype World = World(
    now: int,
    key: Key,
    insts: map<InstanceId, Instance>,
    requests: set<Request>,
    replies: set<Reply>,
    nextCall: nat)

  datatype Step =
    | Advance(dt: nat)
    | Start(i: InstanceId)
    | Begin(i: InstanceId)
    | Execute(r: Request)
    | Lose(r: Request)
    | Deliver(i: InstanceId, p: Reply)
    | Fail(i: InstanceId)
    | Stop(i: InstanceId)
    | Released(i: InstanceId, p: Reply)

  /** No instance has started; the key may hold anything at all. */
  ghost predicate Init(w: World) {
    w.insts == map[] && w.requests == {} && w.replies == {}
  }

  predicate Enabled(w: World, s: Step) {
    match s
    case Advance(_) => true
    case Start(i) => i !in w.insts
    case Begin(i) => i in w.insts && w.insts[i].running && w.insts[i].pending.None?
    case Execute(r) => r in w.requests && r.from in w.insts
    case Lose(r) => r in w.requests
    case Deliver(i, p) =>
      i in w.insts && p in w.replies && w.insts[i].pending.Some? && w.insts[i].pending.value.id == p.id
    case Fail(i) => i in w.insts && w.insts[i].pending.Some?
    case Stop(i) => i in w.insts && w.insts[i].running
    case Released(i, p) => i in w.insts && p in w.replies && w.insts[i].releasing == Some(p.id)
  }

  /** Issue the command tryAcquireLeadership picks: renew when the flag is set, else SET NX. */
  function Issue(w: World, i: InstanceId, inst: Instance): World {
    var op := if inst.isLeader then Renew else Acquire;
    w.(insts := w.insts[i := inst.(pending := Some(Call(w.nextCall, w.now)), lastBegin := w.now)],
       requests := w.requests + {Request(w.nextCall, i, op)},
       nextCall := w.nextCall + 1)
  }

  function Apply(c: Config, w: World, s: Step): World
    requires Enabled(w, s)
  {
    match s
    case Advance(dt) => w.(now := w.now + dt)
    case Start(i) => Issue(w, i, Instance(true, false, None, false, w.now, w.now, None, None))
    case Begin(i) => Issue(w, i, w.insts[i].(ticked := true))
    case Execute(r) =>
      var (key, ok) := Serve(Lease(c), w.key, r.op, r.from, w.now);
      w.(key := key,
         requests := w.requests - {r},
         replies := w.replies + {Reply(r.id, ok, w.now)})
    case Lose(r) => w.(requests := w.requests - {r})
    case Deliver(i, p) =>
      w.(insts := w.insts[i := w.insts[i].(
           isLeader := p.ok,
           pending := None,
           idleSince := w.now,
           grantedAt := if p.ok then Some(p.at) else w.insts[i].grantedAt)])
    case Fail(i) =>
      w.(insts := w.insts[i := w.insts[i].(isLeader := false, pending := None, idleSince := w.now)])
    case Stop(i) =>
      // Release is attempted only when the flag is set; a failed release leaves the flag as it is.
      if w.insts[i].isLeader then
        w.(insts := w.insts[i := w.insts[i].(running := false, releasing := Some(w.nextCall))],
           requests := w.requests + {Request(w.nextCall, i, Release)},
           nextCall := w.nextCall + 1)
      else
        w.(insts := w.insts[i := w.insts[i].(running := false)])
    case Released(i, p) =>
      w.(insts := w.insts[i := w.insts[i].(isLeader := false, releasing := None)])
  }

  /** `steps` is a run from `w` to `w'`. */
  ghost predicate Runs(c: Config, w: World, steps: seq<Step>, w': World)
    decreases |steps|
  {
    if steps == [] then w == w'
    else Enabled(w, steps[0]) && Runs(c, Apply(c, w, steps[0]), steps[1..], w')
  }

  ghost predicate Reachable(c: Config, w: World) {
    exists w0, steps :: Init(w0) && Runs(c, w0, steps, w)
  }

  // ------------------------------------------------------------------ safety for every run

  predicate IsRunningLeader(w: World, i: InstanceId) {
    i in w.insts && w.insts[i].running && w.insts[i].isLeader
  }

  /** The success behind this instance's flag is less than a lease old. */
  predicate Fresh(c: Config, w: World, i: InstanceId)
    requires i in w.insts
  {
    w.insts[i].grantedAt.Some? && w.now - w.insts[i].grantedAt.value < Lease(c)
  }

  /** A grant made to `i` at server time `t` still holds the key for its whole lease. */
  predicate Protects(c: Config, w: World, i: InstanceId, t: int) {
    && t <= w.now
    && (w.now < t + Lease(c) ==>
          w.key.Held? && w.key.owner == i && w.key.expiresAt.Some? && t + Lease(c) <= w.key.expiresAt.value)
  }

  ghost predicate InstanceInv(c: Config, w: World, i: InstanceId)
    requires i in w.insts
  {
    var inst := w.insts[i];
    && (inst.pending.Some? ==> inst.pending.value.id < w.nextCall)
    && (inst.running && inst.isLeader ==> inst.grantedAt.Some?)
    && (inst.running && inst.grantedAt.Some? ==> Protects(c, w, i, inst.grantedAt.value))
    && (inst.running && inst.pending.Some? ==>
          forall p :: p in w.replies && p.id == inst.pending.value.id && p.ok ==> Protects(c, w, i, p.at))
  }

  /** Every request is the outstanding call of its sender, one given up on, or a stopped sender's release. */
  ghost predicate NetworkInv(w: World) {
    && (forall r :: r in w.requests ==> r.id < w.nextCall && r.from in w.insts)
    && (forall r :: r in w.requests && r.op == Release ==> !w.insts[r.from].running)
    && (forall p :: p in w.replies ==> p.id < w.nextCall)
    && (forall r, p :: r in w.requests && p in w.replies ==> r.id != p.id)
    && (forall r, i :: r in w.requests && i in w.insts && w.insts[i].pending.Some? ==>
          w.insts[i].pending.value.id == r.id ==> r.from == i)
    && (forall r, r' :: r in w.requests && r' in w.requests && r.id == r'.id ==> r == r')
  }

  ghost predicate Inv(c: Config, w: World) {
    NetworkInv(w) && forall i :: i in w.insts ==> InstanceInv(c, w, i)
  }

  ghost predicate PendingInv(w: World) {
    forall i :: i in w.insts && w.insts[i].pending.Some? ==> w.insts[i].pending.value.id < w.nextCall
  }

  lemma IssuePreservesNetwork(w: World, i: InstanceId, inst: Instance)
    requires NetworkInv(w) && PendingInv(w) && inst.running && inst.pending.None?
    requires i in w.insts ==> w.insts[i].running
    ensures NetworkInv(Issue(w, i, inst))
  {
  }

  lemma ExecutePreservesNetwork(c: Config, w: World, r: Request)
    requires NetworkInv(w) && Enabled(w, Execute(r))
    ensures NetworkInv(Apply(c, w, Execute(r)))
  {
  }

  lemma StopPreservesNetwork(c: Config, w: World, i: InstanceId)
    requires NetworkInv(w) && PendingInv(w) && Enabled(w, Stop(i))
    ensures NetworkInv(Apply(c, w, Stop(i)))
  {
  }

  lemma StepPreservesNetwork(c: Config, w: World, s: Step)
    requires NetworkInv(w) && PendingInv(w) && Enabled(w, s)
    ensures NetworkInv(Apply(c, w, s))
  {
    match s
    case Start(i) => IssuePreservesNetwork(w, i, Instance(true, false, None, false, w.now, w.now, None, None));
    case Begin(i) => IssuePreservesNetwork(w, i, w.insts[i].(ticked := true));
    case Execute(r) => ExecutePreservesNetwork(c, w, r);
    case Stop(i) => StopPreservesNetwork(c, w, i);
    case _ =>
  }

  /** The protection a running instance holds survives every command any instance can have executed. */
  lemma ServePreservesProtection(c: Config, w: World, r: Request, i: InstanceId, t: int)
    requires Enabled(w, Execute(r)) && Protects(c, w, i, t)
    requires r.op == Release ==> r.from != i
    ensures Protects(c, Apply(c, w, Execute(r)), i, t)
  {
  }

  lemma ExecutePreservesInstances(c: Config, w: World, r: Request)
    requires Inv(c, w) && Enabled(w, Execute(r))
    ensures forall i :: i in w.insts ==> InstanceInv(c, Apply(c, w, Execute(r)), i)
  {
    var w' := Apply(c, w, Execute(r));
    forall i | i in w.insts
      ensures InstanceInv(c, w', i)
    {
      var inst := w.insts[i];
      if inst.running {
        if inst.grantedAt.Some? {
          ServePreservesProtection(c, w, r, i, inst.grantedAt.value);
        }
        if inst.pending.Some? {
          forall p | p in w'.replies && p.id == inst.pending.value.id && p.ok
            ensures Protects(c, w', i, p.at)
          {
            if p in w.replies {
              ServePreservesProtection(c, w, r, i, p.at);
            }
          }
        }
      }
    }
  }

  /** Every other step changes one instance at most and leaves the key and the replies alone. */
  lemma StepPreservesInstance(c: Config, w: World, s: Step, i: InstanceId)
    requires Inv(c, w) && Enabled(w, s) && !s.Execute? && i in Apply(c, w, s).insts
    ensures InstanceInv(c, Apply(c, w, s), i)
  {
    var w' := Apply(c, w, s);
    if i in w.insts {
      ChangedPreservesInstance(c, w, w', i);
    }
  }

  /** The changes a step other than a command makes to an instance: a fresh call, or the end of one,
      with a flag that rests on a grant the key still honours. */
  lemma ChangedPreservesInstance(c: Config, w: World, w': World, i: InstanceId)
    requires i in w.insts && i in w'.insts && InstanceInv(c, w, i) && NetworkInv(w)
    requires w'.key == w.key && w'.replies == w.replies && w.now <= w'.now && w.nextCall <= w'.nextCall
    requires w'.insts[i].running ==> w.insts[i].running
    requires w'.insts[i].pending.Some? && w'.insts[i].pending != w.insts[i].pending ==>
               w'.insts[i].pending.value.id == w.nextCall < w'.nextCall
    requires w'.insts[i].isLeader ==> w.insts[i].isLeader || w'.insts[i].grantedAt.Some?
    requires w'.insts[i].grantedAt == w.insts[i].grantedAt
             || exists p :: p in w.replies && p.ok && w.insts[i].pending.Some? && p.id == w.insts[i].pending.value.id
                            && w'.insts[i].grantedAt == Some(p.at)
    ensures InstanceInv(c, w', i)
  {
  }

  lemma StepPreservesInv(c: Config, w: World, s: Step)
    requires Inv(c, w) && Enabled(w, s)
    ensures Inv(c, Apply(c, w, s))
  {
    assert PendingInv(w) by {
      forall i | i in w.insts && w.insts[i].pending.Some?
        ensures w.insts[i].pending.value.id < w.nextCall
      {
        assert InstanceInv(c, w, i);
      }
    }
    StepPreservesNetwork(c, w, s);
    if s.Execute? {
      ExecutePreservesInstances(c, w, s.r);
    } else {
      forall i | i in Apply(c, w, s).insts
        ensures InstanceInv(c, Apply(c, w, s), i)
      {
        StepPreservesInstance(c, w, s, i);
      }
    }
  }

  lemma {:induction false} RunPreservesInv(c: Config, w: World, steps: seq<Step>, w': World)
    requires Inv(c, w) && Runs(c, w, steps, w')
    ensures Inv(c, w')
    decreases |steps|
  {
    if steps != [] {
      StepPreservesInv(c, w, steps[0]);
      RunPreservesInv(c, Apply(c, w, steps[0]), steps[1..], w');
    }
  }

  lemma ReachableInv(c: Config, w: World)
    requires Reachable(c, w)
    ensures Inv(c, w)
  {
    var w0, steps :| Init(w0) && Runs(c, w0, steps, w);
    RunPreservesInv(c, w0, steps, w);
  }

  /** In every run, a running leader whose last success is younger than the lease owns the live key. */
  lemma FreshLeaderOwnsKey(c: Config, w: World, i: InstanceId)
    requires Reachable(c, w) && IsRunningLeader(w, i) && Fresh(c, w, i)
    ensures Live(w.key, w.now) && w.key.owner == i
  {
    ReachableInv(c, w);
    assert InstanceInv(c, w, i);
  }

  /** Two flags are up together only if one of them rests on a success at least a lease old. */
  lemma TwoLeadersMeansOneStale(c: Config, w: World, i: InstanceId, j: InstanceId)
    requires Reachable(c, w) && i != j && IsRunningLeader(w, i) && IsRunningLeader(w, j)
    ensures w.insts[i].grantedAt.Some? && w.insts[j].grantedAt.Some?
    ensures || Lease(c) <= w.now - w.insts[i].grantedAt.value
            || Lease(c) <= w.now - w.insts[j].grantedAt.value
  {
    ReachableInv(c, w);
    assert InstanceInv(c, w, i) && InstanceInv(c, w, j);
    if Fresh(c, w, i) && Fresh(c, w, j) {
      FreshLeaderOwnsKey(c, w, i);
      FreshLeaderOwnsKey(c, w, j);
    }
  }

  // ------------------------------------------------------------------ timely runs

  /** How late the next attempt may begin. Start makes the first attempt before it creates the ticker,
      so the first tick comes an interval after that attempt returned. From then on an attempt begins on
      the next tick, or at once when the tick is already waiting. */
  function BeginDeadline(c: Config, inst: Instance): int {
    if inst.ticked then Max(inst.lastBegin + c.renewInterval, inst.idleSince) else inst.idleSince + c.renewInterval
  }

  /** No running instance is past a deadline: calls resolve within callTimeout, ticks are served. */
  ghost predicate OnTime(c: Config, w: World) {
    forall i :: i in w.insts && w.insts[i].running ==>
      if w.insts[i].pending.Some? then w.now <= w.insts[i].pending.value.sentAt + c.callTimeout
      else w.now <= BeginDeadline(c, w.insts[i])
  }

  /** A run that is on time in every state it passes through. */
  ghost predicate TimelyRuns(c: Config, w: World, steps: seq<Step>, w': World)
    decreases |steps|
  {
    && OnTime(c, w)
    && if steps == [] then w == w'
       else Enabled(w, steps[0]) && TimelyRuns(c, Apply(c, w, steps[0]), steps[1..], w')
  }

  ghost predicate TimelyReachable(c: Config, w: World) {
    exists w0, steps :: Init(w0) && TimelyRuns(c, w0, steps, w)
  }

  /** The longest a flag can stay up on the strength of one success: Start's own attempt is answered a
      timeout after it was granted, the first tick follows an interval later, and its renewal hangs. */
  function WorstStaleness(c: Config): nat {
    c.renewInterval + 2 * c.callTimeout
  }

  ghost predicate TimingInv(c: Config, w: World, i: InstanceId)
    requires i in w.insts
  {
    var inst := w.insts[i];
    && inst.lastBegin <= w.now
    && (inst.pending.Some? ==> inst.pending.value.sentAt == inst.lastBegin)
    && (inst.running && inst.pending.None? ==> inst.idleSince <= inst.lastBegin + c.callTimeout)
    && (inst.pending.Some? ==>
          forall p :: p in w.replies && p.id == inst.pending.value.id ==> inst.lastBegin <= p.at)
    && (inst.running && inst.isLeader && inst.grantedAt.Some? ==>
          inst.lastBegin <= inst.grantedAt.value
                            + if inst.pending.Some? then c.renewInterval + c.callTimeout else 0)
  }

  lemma StepPreservesInstanceTiming(c: Config, w: World, s: Step, i: InstanceId)
    requires Enabled(w, s) && OnTime(c, w) && i in Apply(c, w, s).insts
    requires NetworkInv(w) && (i in w.insts ==> InstanceInv(c, w, i) && TimingInv(c, w, i))
    ensures TimingInv(c, Apply(c, w, s), i)
  {
  }

  lemma StepPreservesTiming(c: Config, w: World, s: Step)
    requires Inv(c, w) && Enabled(w, s) && OnTime(c, w)
    requires forall i :: i in w.insts ==> TimingInv(c, w, i)
    ensures forall i :: i in Apply(c, w, s).insts ==> TimingInv(c, Apply(c, w, s), i)
  {
    forall i | i in Apply(c, w, s).insts
      ensures TimingInv(c, Apply(c, w, s), i)
    {
      StepPreservesInstanceTiming(c, w, s, i);
    }
  }

  lemma {:induction false} TimelyRunInv(c: Config, w: World, steps: seq<Step>, w': World)
    requires Inv(c, w) && TimelyRuns(c, w, steps, w')
    requires forall i :: i in w.insts ==> TimingInv(c, w, i)
    ensures Inv(c, w') && OnTime(c, w') && forall i :: i in w'.insts ==> TimingInv(c, w', i)
    decreases |steps|
  {
    if steps != [] {
      StepPreservesInv(c, w, steps[0]);
      StepPreservesTiming(c, w, steps[0]);
      TimelyRunInv(c, Apply(c, w, steps[0]), steps[1..], w');
    }
  }

  ghost predicate AtMostOneLeader(w: World) {
    forall i, j :: IsRunningLeader(w, i) && IsRunningLeader(w, j) ==> i == j
  }

  lemma TimelyLeaderIsUnique(c: Config, w: World)
    requires TimelyReachable(c, w) && WorstStaleness(c) < Lease(c)
    ensures AtMostOneLeader(w)
  {
    var w0, steps :| Init(w0) && TimelyRuns(c, w0, steps, w);
    TimelyRunInv(c, w0, steps, w);
    forall i, j | IsRunningLeader(w, i) && IsRunningLeader(w, j)
      ensures i == j
    {
      assert InstanceInv(c, w, i) && InstanceInv(c, w, j) && TimingInv(c, w, i) && TimingInv(c, w, j);
    }
  }

  // ------------------------------------------------------------------ and exactly when

  lemma {:induction false} ExtendTimely(c: Config, w0: World, steps: seq<Step>, w: World, s: Step)
    requires TimelyRuns(c, w0, steps, w) && Enabled(w, s) && OnTime(c, Apply(c, w, s))
    ensures TimelyRuns(c, w0, steps + [s], Apply(c, w, s))
    decreases |steps|
  {
    if steps == [] {
      assert [s][1..] == [];
    } else {
      ExtendTimely(c, Apply(c, w0, steps[0]), steps[1..], w, s);
      assert (steps + [s])[1..] == steps[1..] + [s];
    }
  }

  lemma TimelyStep(c: Config, w: World, s: Step)
    requires TimelyReachable(c, w) && Enabled(w, s) && OnTime(c, Apply(c, w, s))
    ensures TimelyReachable(c, Apply(c, w, s))
  {
    var w0, steps :| Init(w0) && TimelyRuns(c, w0, steps, w);
    ExtendTimely(c, w0, steps, w, s);
  }

  /** An idle server and no instance, at time zero. */
  const EMPTY: World := World(0, Absent, map[], {}, {}, 0)

  lemma EmptyIsReachable(c: Config)
    ensures TimelyReachable(c, EMPTY)
  {
    assert TimelyRuns(c, EMPTY, [], EMPTY);
  }

  /** From a world where "a" leads, is on time, and the key is free, "b" takes the lead as well. */
  lemma SecondLeader(c: Config, w: World) returns (w': World)
    requires TimelyReachable(c, w) && IsRunningLeader(w, "a") && "b" !in w.insts && !Live(w.key, w.now)
    ensures TimelyReachable(c, w') && IsRunningLeader(w', "a") && IsRunningLeader(w', "b")
  {
    assert OnTime(c, w) by {
      var w0, steps :| Init(w0) && TimelyRuns(c, w0, steps, w);
      LastIsOnTime(c, w0, steps, w);
    }
    var r := Request(w.nextCall, "b", Acquire);
    var w1 := Apply(c, w, Start("b"));
    TimelyStep(c, w, Start("b"));
    var w2 := Apply(c, w1, Execute(r));
    TimelyStep(c, w1, Execute(r));
    var p := Reply(r.id, true, w.now);
    w' := Apply(c, w2, Deliver("b", p));
    TimelyStep(c, w2, Deliver("b", p));
  }

  lemma {:induction false} LastIsOnTime(c: Config, w: World, steps: seq<Step>, w': World)
    requires TimelyRuns(c, w, steps, w')
    ensures OnTime(c, w')
    decreases |steps|
  {
    if steps != [] {
      LastIsOnTime(c, Apply(c, w, steps[0]), steps[1..], w');
    }
  }

  /** "a" acquires at time zero and hears of it after `delay`. */
  lemma FirstLeader(c: Config, delay: nat) returns (w: World)
    requires delay <= c.callTimeout
    ensures TimelyReachable(c, w) && w.now == delay && w.insts.Keys == {"a"} && w.nextCall == 1
    ensures w.insts["a"] == Instance(true, true, None, false, 0, delay, Some(0), None)
    ensures w.key == Held("a", if Lease(c) == 0 then None else Some(Lease(c)))
  {
    EmptyIsReachable(c);
    var r := Request(0, "a", Acquire);
    var p := Reply(0, true, 0);
    var w1 := Apply(c, EMPTY, Start("a"));
    TimelyStep(c, EMPTY, Start("a"));
    var w2 := Apply(c, w1, Execute(r));
    TimelyStep(c, w1, Execute(r));
    var w3 := Apply(c, w2, Advance(delay));
    TimelyStep(c, w2, Advance(delay));
    w := Apply(c, w3, Deliver("a", p));
    TimelyStep(c, w3, Deliver("a", p));
  }

  /** The first renewal comes on its punctual tick and is never answered: the lease runs out under a
      raised flag. */
  lemma TwoLeadersWhenStale(c: Config) returns (w: World)
    requires 0 < Lease(c) <= WorstStaleness(c)
    ensures TimelyReachable(c, w) && IsRunningLeader(w, "a") && IsRunningLeader(w, "b")
  {
    var w1 := FirstLeader(c, c.callTimeout);
    var wait := Advance(c.renewInterval);
    var w2 := Apply(c, w1, wait);
    TimelyStep(c, w1, wait);
    var w3 := Apply(c, w2, Begin("a"));
    TimelyStep(c, w2, Begin("a"));
    var w4 := Apply(c, w3, Advance(c.callTimeout));
    TimelyStep(c, w3, Advance(c.callTimeout));
    w := SecondLeader(c, w4);
  }

  /** A sub-second lease truncates to zero: the renewal that "succeeds" deletes the key. */
  lemma TwoLeadersWhenLeaseTruncatesToZero(c: Config) returns (w: World)
    requires Lease(c) == 0
    ensures TimelyReachable(c, w) && IsRunningLeader(w, "a") && IsRunningLeader(w, "b")
  {
    var w0 := FirstLeader(c, 0);
    var w1 := Apply(c, w0, Advance(c.renewInterval));
    TimelyStep(c, w0, Advance(c.renewInterval));
    var w2 := Apply(c, w1, Begin("a"));
    TimelyStep(c, w1, Begin("a"));
    var r := Request(1, "a", Renew);
    var w3 := Apply(c, w2, Execute(r));
    TimelyStep(c, w2, Execute(r));
    var p := Reply(1, true, w2.now);
    var w4 := Apply(c, w3, Deliver("a", p));
    TimelyStep(c, w3, Deliver("a", p));
    w := SecondLeader(c, w4);
  }

  /** A deployment has at most one leader in all its timely runs exactly when a flag cannot outlive
      the truncated lease: renewInterval + 2 * callTimeout < lease. */
  lemma LeaderUniqueIffLeaseOutlastsRenewal(c: Config)
    ensures (forall w :: TimelyReachable(c, w) ==> AtMostOneLeader(w))
            <==> c.renewInterval + 2 * c.callTimeout < c.leaseDuration / 1_000_000_000 * 1_000_000_000
  {
    if WorstStaleness(c) < Lease(c) {
      forall w | TimelyReachable(c, w)
        ensures AtMostOneLeader(w)
      {
        TimelyLeaderIsUnique(c, w);
      }
    } else {
      var w;
      if Lease(c) == 0 {
        w := TwoLeadersWhenLeaseTruncatesToZero(c);
      } else {
        w := TwoLeadersWhenStale(c);
      }
      assert !AtMostOneLeader(w) by {
        assert "a" != "b" && IsRunningLeader(w, "a") && IsRunningLeader(w, "b");
      }
    }
  }

  // ------------------------------------------------------------------ the elector object

  /** The shared key, as one Redis server holds it. */
  class RedisKey {
    var key: Key

    constructor (initial: Key)
      ensures key == initial
    {
      key := initial;
    }

    /** One command over the network: it may be lost on the way in, or its reply on the way back. */
    method Run(lease: nat, op: Op, id: InstanceId, now: int, arrives: bool, answered: bool)
      returns (result: Option<bool>)
      modifies this
      ensures key == if arrives then Serve(lease, old(key), op, id, now).0 else old(key)
      ensures result == if arrives && answered then Some(Serve(lease, old(key), op, id, now).1) else None
      ensures Live(old(key), now) && old(key).owner != id ==> key == old(key) && result != Some(true)
      ensures result == Some(true) ==>
                key == if op == Release || (op == Renew && lease == 0) then Absent
                       else Held(id, if lease == 0 then None else Some(now + lease))
    {
      result := None;
      if arrives {
        var (k, ok) := Serve(lease, key, op, id, now);
        key := k;
        if answered {
          result := Some(ok);
        }
      }
    }
  }

  class LeaderElector {
    const instanceID: InstanceId
    const config: Config
    var isLeader: bool

    constructor (instanceID: InstanceId, config: Config)
      ensures this.instanceID == instanceID && this.config == config && !isLeader
    {
      this.instanceID := instanceID;
      this.config := config;
      isLeader := false;
    }

    /** SET NX EX when not leader, the renew script otherwise. The flag ends up set exactly when the
        command ran, succeeded and was answered, and then the key is this instance's for a full lease. */
    method TryAcquireLeadership(redis: RedisKey, now: int, arrives: bool, answered: bool) returns (ok: bool)
      modifies this, redis
      ensures ok == isLeader
      ensures redis.key == if arrives then Serve(Lease(config), old(redis.key), if old(isLeader) then Renew else Acquire, instanceID, now).0
                           else old(redis.key)
      ensures isLeader <==> arrives && answered
                            && if old(isLeader) then Live(old(redis.key), now) && old(redis.key).owner == instanceID
                               else !Live(old(redis.key), now)
      ensures isLeader && Lease(config) != 0 ==> redis.key == Held(instanceID, Some(now + Lease(config)))
    {
      if isLeader {
        ok := RenewLeadership(redis, now, arrives, answered);
        return;
      }
      var result := redis.Run(Lease(config), Acquire, instanceID, now, arrives, answered);
      match result {
        case None => isLeader, ok := false, false;
        case Some(created) => isLeader, ok := created, created;
      }
    }

    method RenewLeadership(redis: RedisKey, now: int, arrives: bool, answered: bool) returns (ok: bool)
      modifies this, redis
      ensures ok == isLeader
      ensures redis.key == if arrives then Serve(Lease(config), old(redis.key), Renew, instanceID, now).0 else old(redis.key)
      ensures isLeader <==> arrives && answered && Live(old(redis.key), now) && old(redis.key).owner == instanceID
    {
      var result := redis.Run(Lease(config), Renew, instanceID, now, arrives, answered);
      match result {
        case None => isLeader, ok := false, false;
        case Some(extended) => isLeader, ok := extended, extended;
      }
    }

    /** Never frees a key another instance holds; an unanswered release leaves the flag as it was. */
    method ReleaseLeadership(redis: RedisKey, now: int, arrives: bool, answered: bool)
      modifies this, redis
      ensures isLeader <==> old(isLeader) && !(arrives && answered)
      ensures old(redis.key).Held? && old(redis.key).owner != instanceID ==> redis.key == old(redis.key)
      ensures arrives && Live(old(redis.key), now) && old(redis.key).owner == instanceID ==> redis.key == Absent
      ensures !arrives ==> redis.key == old(redis.key)
    {
      var result := redis.Run(Lease(config), Release, instanceID, now, arrives, answered);
      if result.Some? {
        isLeader := false;
      }
    }

    method Stop(redis: RedisKey, now: int, arrives: bool, answered: bool)
      modifies this, redis
      ensures isLeader <==> old(isLeader) && !(arrives && answered)
      ensures !old(isLeader) ==> redis.key == old(redis.key)
      ensures old(redis.key).Held? && old(redis.key).owner != instanceID ==> redis.key == old(redis.key)
      ensures old(isLeader) && arrives && Live(old(redis.key), now) && old(redis.key).owner == instanceID ==>
                redis.key == Absent
    {
      if isLeader {
        ReleaseLeadership(redis, now, arrives, answered);
      }
    }
  }

  /** What the release is for: the next attempt after a leader has stopped wins, however much of the
      lease was left. */
  method HandOver(leaving: LeaderElector, joining: LeaderElector, redis: RedisKey, now: int, answered: bool)
    requires leaving != joining && leaving.isLeader && !joining.isLeader
    requires Live(redis.key, now) && redis.key.owner == leaving.instanceID
    modifies leaving, joining, redis
    ensures joining.isLeader && redis.key.Held? && redis.key.owner == joining.instanceID
    ensures leaving.isLeader <==> !answered
  {
    leaving.Stop(redis, now, true, answered);
    var _ := joining.TryAcquireLeadership(redis, now, true, true);
  }

  /** The elector's attempt is the protocol's Begin, Execute, Deliver taken with no delay between them. */
  lemma AttemptIsThreeSteps(c: Config, w: World, i: InstanceId)
    requires Inv(c, w) && Enabled(w, Begin(i))
    ensures var op := if w.insts[i].isLeader then Renew else Acquire;
            var (key, ok) := Serve(Lease(c), w.key, op, i, w.now);
            exists w' :: && Runs(c, w, [Begin(i), Execute(Request(w.nextCall, i, op)),
                                        Deliver(i, Reply(w.nextCall, ok, w.now))], w')
                         && w'.key == key && w'.now == w.now && w'.insts.Keys == w.insts.Keys
                         && w'.insts[i].isLeader == ok && w'.insts[i].running
                         && forall j :: j in w.insts && j != i ==> w'.insts[j] == w.insts[j]
  {
    var op := if w.insts[i].isLeader then Renew else Acquire;
    var (key, ok) := Serve(Lease(c), w.key, op, i, w.now);
    var r, p := Request(w.nextCall, i, op), Reply(w.nextCall, ok, w.now);
    var w1 := Apply(c, w, Begin(i));
    var w2 := Apply(c, w1, Execute(r));
    var w' := Apply(c, w2, Deliver(i, p));
    var steps := [Begin(i), Execute(r), Deliver(i, p)];
    assert steps[1..] == [Execute(r), Deliver(i, p)] && steps[1..][1..] == [Deliver(i, p)];
    assert Runs(c, w2, [Deliver(i, p)], w');
    assert Runs(c, w1, steps[1..], w');
  }

  lemma StopFreesKey(c: Config, w: World, i: InstanceId) returns (w': World)
    requires Inv(c, w) && IsRunningLeader(w, i) && Fresh(c, w, i)
    ensures Runs(c, w, [Stop(i), Execute(Request(w.nextCall, i, Release))], w')
    ensures Inv(c, w') && w'.key == Absent && w'.now == w.now && w'.nextCall == w.nextCall + 1
    ensures i in w'.insts && !w'.insts[i].running && w'.insts == w.insts[i := w'.insts[i]]
  {
    assert InstanceInv(c, w, i);
    var release := Execute(Request(w.nextCall, i, Release));
    var w1 := Apply(c, w, Stop(i));
    StepPreservesInv(c, w, Stop(i));
    w' := Apply(c, w1, release);
    StepPreservesInv(c, w1, release);
    assert [Stop(i), release][1..] == [release];
    assert Runs(c, w1, [release], w');
  }

  lemma {:induction false} RunsConcat(c: Config, w: World, a: seq<Step>, w1: World, b: seq<Step>, w2: World)
    requires Runs(c, w, a, w1) && Runs(c, w1, b, w2)
    ensures Runs(c, w, a + b, w2)
    decreases |a|
  {
    if a == [] {
      assert a + b == b;
    } else {
      assert (a + b)[1..] == a[1..] + b;
      RunsConcat(c, Apply(c, w, a[0]), a[1..], w1, b, w2);
    }
  }

  lemma FreeKeyIsTaken(c: Config, w: World, i: InstanceId) returns (steps: seq<Step>, w': World)
    requires Inv(c, w) && Enabled(w, Begin(i)) && !w.insts[i].isLeader && w.key == Absent && 0 < Lease(c)
    ensures Runs(c, w, steps, w') && |steps| == 3 && steps[0] == Begin(i)
    ensures w'.now == w.now && w'.key == Held(i, Some(w.now + Lease(c))) && IsRunningLeader(w', i)
    ensures forall j :: j in w.insts && j != i ==> j in w'.insts && w'.insts[j] == w.insts[j]
  {
    AttemptIsThreeSteps(c, w, i);
    var acquire := Request(w.nextCall, i, Acquire);
    steps := [Begin(i), Execute(acquire), Deliver(i, Reply(acquire.id, true, w.now))];
    w' :| Runs(c, w, steps, w') && w'.key == Held(i, Some(w.now + Lease(c))) && w'.now == w.now
          && w'.insts.Keys == w.insts.Keys && w'.insts[i].isLeader && w'.insts[i].running
          && forall j :: j in w.insts && j != i ==> w'.insts[j] == w.insts[j];
  }

  /** What the release is for, in the protocol: when a fresh leader stops, its release and then another
      instance's attempt make that instance the leader at the same instant, the lease notwithstanding. */
  lemma StoppedLeaderHandsOver(c: Config, w: World, i: InstanceId, j: InstanceId) returns (steps: seq<Step>, w': World)
    requires Inv(c, w) && IsRunningLeader(w, i) && Fresh(c, w, i)
    requires i != j && Enabled(w, Begin(j)) && !w.insts[j].isLeader
    ensures Runs(c, w, steps, w') && |steps| == 5 && steps[0] == Stop(i) && steps[2] == Begin(j)
    ensures w'.now == w.now && w'.key == Held(j, Some(w.now + Lease(c)))
    ensures IsRunningLeader(w', j) && !IsRunningLeader(w', i)
  {
    var w1 := StopFreesKey(c, w, i);
    var attempt;
    attempt, w' := FreeKeyIsTaken(c, w1, j);
    var stop := [Stop(i), Execute(Request(w.nextCall, i, Release))];
    RunsConcat(c, w, stop, w1, attempt, w');
    steps := stop + attempt;
  }
}

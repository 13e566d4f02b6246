/**
 The concurrent fan-out of one batch request (gateway/http_request_context_handle_request.go,
 handleBatchRelayRequest): a spawning loop that takes a semaphore slot per payload, one goroutine per
 payload, a wait group, a goroutine that closes the result channel, and the collecting loop.

 Each goroutine moves on its own; a step is one blocking operation or the code between two of them.
 */
module BatchFanOut {
  import opened Prelude

  datatype Outcome = Outcome(response: string, failed: bool)

  datatype Item = Item(index: nat, outcome: Outcome)

  /** A limit of zero or less means unbounded: no semaphore is made. */
  datatype Limits = Limits(maxConcurrentRelays: int)

  predicate Bounded(l: Limits) { l.maxConcurrentRelays > 0 }

  datatype Phase = Spawning | Collecting | Finished

  /** Where one payload's goroutine is: not started; at work; its result sent but its slot still
      taken; its slot free but the wait group not told; gone. */
  datatype Stage = Unstarted | Processing | Sent | Leaving | Gone

  datatype Batch = Batch(
    phase: Phase,
    next: nat,
    slotTaken: bool,
    slots: int,
    waiting: int,
    stages: seq<Stage>,
    channel: seq<Item>,
    closed: bool,
    results: seq<Option<Outcome>>,
    produced: map<nat, Outcome>)

  datatype Step =
    | TakeSlot
    | Spawn
    | StopSpawning
    | Send(i: nat, outcome: Outcome)
    | FreeSlot(i: nat)
    | Leave(i: nat)
    | Close
    | Collect
    | Finish

  function Initial(n: nat): Batch {
    Batch(Spawning, 0, false, 0, 0, seq(n, _ => Unstarted), [], false, seq(n, _ => None), map[])
  }

  predicate At(b: Batch, i: nat, stage: Stage) { i < |b.stages| && b.stages[i] == stage }

  predicate Enabled(l: Limits, b: Batch, s: Step) {
    var n := |b.stages|;
    match s
    case TakeSlot =>
      b.phase == Spawning && b.next < n && !b.slotTaken && (Bounded(l) ==> b.slots < l.maxConcurrentRelays)
    case Spawn => b.phase == Spawning && b.slotTaken && b.next < n
    case StopSpawning => b.phase == Spawning && b.next == n && !b.slotTaken
    case Send(i, _) => At(b, i, Processing) && |b.channel| < n
    case FreeSlot(i) => At(b, i, Sent)
    case Leave(i) => At(b, i, Leaving)
    case Close => b.phase == Collecting && !b.closed && b.waiting == 0
    case Collect => b.phase == Collecting && b.channel != [] && b.channel[0].index < |b.results|
    case Finish => b.phase == Collecting && b.closed && b.channel == []
  }

  function Apply(l: Limits, b: Batch, s: Step): Batch
    requires Enabled(l, b, s)
  {
    match s
    case TakeSlot => b.(slotTaken := true, slots := if Bounded(l) then b.slots + 1 else b.slots)
    case Spawn =>
      b.(slotTaken := false, next := b.next + 1, stages := b.stages[b.next := Processing], waiting := b.waiting + 1)
    case StopSpawning => b.(phase := Collecting)
    case Send(i, outcome) =>
      b.(stages := b.stages[i := Sent], channel := b.channel + [Item(i, outcome)], produced := b.produced[i := outcome])
    case FreeSlot(i) => b.(stages := b.stages[i := Leaving], slots := if Bounded(l) then b.slots - 1 else b.slots)
    case Leave(i) => b.(stages := b.stages[i := Gone], waiting := b.waiting - 1)
    case Close => b.(closed := true)
    case Collect =>
      b.(channel := b.channel[1..], results := b.results[b.channel[0].index := Some(b.channel[0].outcome)])
    case Finish => b.(phase := Finished)
  }

  ghost predicate Runs(l: Limits, n: nat, b: Batch, steps: seq<Step>, b': Batch)
    decreases |steps|
  {
    if steps == [] then b == b'
    else Enabled(l, b, steps[0]) && Runs(l, n, Apply(l, b, steps[0]), steps[1..], b')
  }

  ghost predicate Reachable(l: Limits, n: nat, b: Batch) {
    exists steps :: Runs(l, n, Initial(n), steps, b)
  }

  // ------------------------------------------------------------------ the invariant of every run

  /** Sum of a weight over all goroutines. */
  function Total(stages: seq<Stage>, weight: Stage -> nat): nat {
    if stages == [] then 0 else weight(stages[0]) + Total(stages[1..], weight)
  }

  function Working(s: Stage): nat { if s == Processing then 1 else 0 }

  function HoldsSlot(s: Stage): nat { if s == Processing || s == Sent then 1 else 0 }

  function Awaited(s: Stage): nat { if s == Processing || s == Sent || s == Leaving then 1 else 0 }

  lemma {:induction false} TotalUpdate(stages: seq<Stage>, i: nat, s: Stage, weight: Stage -> nat)
    requires i < |stages|
    ensures Total(stages[i := s], weight) == Total(stages, weight) - weight(stages[i]) + weight(s)
  {
    if i == 0 {
      assert stages[i := s][1..] == stages[1..];
    } else {
      TotalUpdate(stages[1..], i - 1, s, weight);
      assert stages[i := s][1..] == stages[1..][i - 1 := s];
    }
  }

  lemma {:induction false} TotalBounds(stages: seq<Stage>, i: nat, weight: Stage -> nat)
    requires i < |stages|
    ensures weight(stages[i]) <= Total(stages, weight)
  {
    if i > 0 {
      TotalBounds(stages[1..], i - 1, weight);
    }
  }

  lemma {:induction false} TotalMonotone(stages: seq<Stage>, weight: Stage -> nat, heavier: Stage -> nat)
    requires forall s :: weight(s) <= heavier(s)
    ensures Total(stages, weight) <= Total(stages, heavier)
  {
    if stages != [] {
      TotalMonotone(stages[1..], weight, heavier);
    }
  }

  lemma {:induction false} TotalZero(stages: seq<Stage>, weight: Stage -> nat)
    requires forall i :: 0 <= i < |stages| ==> weight(stages[i]) == 0
    ensures Total(stages, weight) == 0
  {
    if stages != [] {
      TotalZero(stages[1..], weight);
    }
  }

  /** Exactly the payloads before the spawning index have been started. */
  ghost predicate StartedInv(n: nat, b: Batch) {
    && |b.stages| == n
    && b.next <= n
    && (forall i: nat :: i < n ==> (b.stages[i] == Unstarted <==> b.next <= i))
  }

  /** Slots and wait group count exactly the goroutines that hold them. */
  ghost predicate Counted(l: Limits, b: Batch) {
    && b.waiting == Total(b.stages, Awaited)
    && (Bounded(l) ==>
          b.slots == Total(b.stages, HoldsSlot) + (if b.slotTaken then 1 else 0) <= l.maxConcurrentRelays)
  }

  ghost predicate PhaseInv(n: nat, b: Batch) {
    && (b.slotTaken ==> b.phase == Spawning && b.next < n)
    && (b.phase != Spawning ==> b.next == n)
    && (b.closed ==> b.phase != Spawning && b.waiting == 0)
    && (b.phase == Finished ==> b.closed && b.channel == [])
  }

  ghost predicate InChannel(channel: seq<Item>, i: nat) {
    exists k :: 0 <= k < |channel| && channel[k].index == i
  }

  predicate Filled(results: seq<Option<Outcome>>, i: nat) { i < |results| && results[i].Some? }

  ghost predicate ChannelInv(channel: seq<Item>, results: seq<Option<Outcome>>, produced: map<nat, Outcome>) {
    && (forall k :: 0 <= k < |channel| ==>
          channel[k].index in produced && produced[channel[k].index] == channel[k].outcome)
    && (forall j, k :: 0 <= j < k < |channel| ==> channel[j].index != channel[k].index)
    && (forall k :: 0 <= k < |channel| ==> !Filled(results, channel[k].index))
  }

  /** Each result already produced is in exactly one place: the channel, once, or its own slot. */
  ghost predicate Delivered(channel: seq<Item>, results: seq<Option<Outcome>>, produced: map<nat, Outcome>) {
    && ChannelInv(channel, results, produced)
    && (forall i: nat :: Filled(results, i) ==> i in produced && results[i] == Some(produced[i]))
    && (forall i: nat :: i in produced ==> Filled(results, i) || InChannel(channel, i))
  }

  predicate HasSent(s: Stage) { s == Sent || s == Leaving || s == Gone }

  ghost predicate DeliveryInv(n: nat, b: Batch) {
    && |b.results| == |b.stages| == n
    && (forall i: nat :: i in b.produced ==> i < n)
    && (forall i: nat :: i < n ==> (i in b.produced <==> HasSent(b.stages[i])))
    && Delivered(b.channel, b.results, b.produced)
  }

  ghost predicate Inv(l: Limits, n: nat, b: Batch) {
    StartedInv(n, b) && Counted(l, b) && PhaseInv(n, b) && DeliveryInv(n, b)
  }

  /** The steps that move a goroutine on, which one they move, and where to. */
  predicate Moves(s: Step) { s.Spawn? || s.Send? || s.FreeSlot? || s.Leave? }

  function Moved(b: Batch, s: Step): nat
    requires Moves(s)
  {
    if s.Spawn? then b.next else s.i
  }

  function NewStage(s: Step): Stage
    requires Moves(s)
  {
    if s.Spawn? then Processing else if s.Send? then Sent else if s.FreeSlot? then Leaving else Gone
  }

  lemma StepPreservesCounted(l: Limits, n: nat, b: Batch, s: Step)
    requires StartedInv(n, b) && Counted(l, b) && Enabled(l, b, s)
    ensures Counted(l, Apply(l, b, s))
  {
    if Moves(s) {
      TotalUpdate(b.stages, Moved(b, s), NewStage(s), Awaited);
      TotalUpdate(b.stages, Moved(b, s), NewStage(s), HoldsSlot);
    }
  }

  lemma StepPreservesPhase(l: Limits, n: nat, b: Batch, s: Step)
    requires StartedInv(n, b) && Counted(l, b) && PhaseInv(n, b) && Enabled(l, b, s)
    ensures PhaseInv(n, Apply(l, b, s))
  {
    if s.Send? || s.Leave? {
      TotalBounds(b.stages, s.i, Awaited);
    }
  }

  lemma SendPreservesDelivered(channel: seq<Item>, results: seq<Option<Outcome>>, produced: map<nat, Outcome>,
                               i: nat, outcome: Outcome)
    requires Delivered(channel, results, produced) && i !in produced
    ensures Delivered(channel + [Item(i, outcome)], results, produced[i := outcome])
  {
    var channel', produced' := channel + [Item(i, outcome)], produced[i := outcome];
    assert channel'[|channel|].index == i;
    forall j: nat | j in produced'
      ensures Filled(results, j) || InChannel(channel', j)
    {
      if j != i && InChannel(channel, j) {
        var k :| 0 <= k < |channel| && channel[k].index == j;
        assert channel'[k].index == j;
      }
    }
  }

  lemma CollectPreservesDelivered(channel: seq<Item>, results: seq<Option<Outcome>>, produced: map<nat, Outcome>)
    requires Delivered(channel, results, produced) && channel != [] && channel[0].index < |results|
    ensures Delivered(channel[1..], results[channel[0].index := Some(channel[0].outcome)], produced)
  {
    var channel', results' := channel[1..], results[channel[0].index := Some(channel[0].outcome)];
    forall j: nat | j in produced
      ensures Filled(results', j) || InChannel(channel', j)
    {
      if j != channel[0].index && InChannel(channel, j) {
        var k :| 0 <= k < |channel| && channel[k].index == j;
        assert channel'[k - 1].index == j;
      }
    }
  }

  lemma StepPreservesDelivery(l: Limits, n: nat, b: Batch, s: Step)
    requires DeliveryInv(n, b) && StartedInv(n, b) && Enabled(l, b, s)
    ensures DeliveryInv(n, Apply(l, b, s))
  {
    if s.Send? {
      SendPreservesDelivered(b.channel, b.results, b.produced, s.i, s.outcome);
    } else if s.Collect? {
      CollectPreservesDelivered(b.channel, b.results, b.produced);
    }
  }

  lemma StepPreservesInv(l: Limits, n: nat, b: Batch, s: Step)
    requires Inv(l, n, b) && Enabled(l, b, s)
    ensures Inv(l, n, Apply(l, b, s))
  {
    StepPreservesCounted(l, n, b, s);
    StepPreservesPhase(l, n, b, s);
    StepPreservesDelivery(l, n, b, s);
  }

  lemma {:induction false} RunPreservesInv(l: Limits, n: nat, b: Batch, steps: seq<Step>, b': Batch)
    requires Inv(l, n, b) && Runs(l, n, b, steps, b')
    ensures Inv(l, n, b')
    decreases |steps|
  {
    if steps != [] {
      StepPreservesInv(l, n, b, steps[0]);
      RunPreservesInv(l, n, Apply(l, b, steps[0]), steps[1..], b');
    }
  }

  lemma InitialInv(l: Limits, n: nat)
    ensures Inv(l, n, Initial(n))
  {
    TotalZero(Initial(n).stages, Awaited);
    TotalZero(Initial(n).stages, HoldsSlot);
  }

  lemma ReachableInv(l: Limits, n: nat, b: Batch)
    requires Reachable(l, n, b)
    ensures Inv(l, n, b)
  {
    var steps :| Runs(l, n, Initial(n), steps, b);
    InitialInv(l, n);
    RunPreservesInv(l, n, Initial(n), steps, b);
  }

  // ------------------------------------------------------------------ what holds in every run

  /** Never more payloads in processing than the limit allows. */
  lemma ConcurrencyIsBounded(l: Limits, n: nat, b: Batch)
    requires Reachable(l, n, b) && l.maxConcurrentRelays > 0
    ensures Total(b.stages, Working) <= l.maxConcurrentRelays
  {
    ReachableInv(l, n, b);
    TotalMonotone(b.stages, Working, HoldsSlot);
  }

  function Upto(n: nat): (r: set<nat>)
    ensures (forall i: nat :: i in r <==> i < n) && |r| == n
  {
    if n == 0 then {} else Upto(n - 1) + {n - 1}
  }

  lemma {:induction false} DistinctSize(items: seq<Item>, indices: set<nat>)
    requires forall j, k :: 0 <= j < k < |items| ==> items[j].index != items[k].index
    requires forall k :: 0 <= k < |items| ==> items[k].index in indices
    ensures |items| <= |indices|
  {
    if items != [] {
      DistinctSize(items[1..], indices - {items[0].index});
    }
  }

  lemma RoomToSend(n: nat, b: Batch, i: nat)
    requires DeliveryInv(n, b) && At(b, i, Processing)
    ensures |b.channel| < n
  {
    DistinctSize(b.channel, Upto(n) - {i});
  }

  /** The buffered channel always has room for the result of a payload still in processing. */
  lemma SendNeverBlocks(l: Limits, n: nat, b: Batch, i: nat)
    requires Reachable(l, n, b) && At(b, i, Processing)
    ensures |b.channel| < n
  {
    ReachableInv(l, n, b);
    RoomToSend(n, b, i);
  }

  /** No scheduling deadlocks: until the batch is finished some step can be taken. */
  lemma NeverDeadlocks(l: Limits, n: nat, b: Batch) returns (s: Step)
    requires Reachable(l, n, b) && b.phase != Finished
    ensures Enabled(l, b, s)
  {
    ReachableInv(l, n, b);
    s := SomeStep(l, n, b);
  }

  lemma SomeStep(l: Limits, n: nat, b: Batch) returns (s: Step)
    requires Inv(l, n, b) && b.phase != Finished
    ensures Enabled(l, b, s)
  {
    if i: nat :| At(b, i, Sent) {
      s := FreeSlot(i);
    } else if i: nat :| At(b, i, Leaving) {
      s := Leave(i);
    } else if i: nat :| At(b, i, Processing) {
      RoomToSend(n, b, i);
      s := Send(i, Outcome("", true));
    } else {
      s := NothingInFlight(l, n, b);
    }
  }

  lemma NothingInFlight(l: Limits, n: nat, b: Batch) returns (s: Step)
    requires Inv(l, n, b) && b.phase != Finished
    requires forall i: nat :: !At(b, i, Sent) && !At(b, i, Leaving) && !At(b, i, Processing)
    ensures Enabled(l, b, s)
  {
    forall i | 0 <= i < |b.stages|
      ensures Awaited(b.stages[i]) == 0 && HoldsSlot(b.stages[i]) == 0
    {
      assert !At(b, i, Sent) && !At(b, i, Leaving) && !At(b, i, Processing);
    }
    TotalZero(b.stages, Awaited);
    TotalZero(b.stages, HoldsSlot);
    if b.phase == Spawning {
      s := if b.slotTaken then Spawn else if b.next < n then TakeSlot else StopSpawning;
    } else if b.channel != [] {
      s := Collect;
    } else {
      s := if b.closed then Finish else Close;
    }
  }

  /** Work left in one payload's goroutine, its result's collection included. */
  function WorkLeft(s: Stage): nat {
    match s
    case Unstarted => 6
    case Processing => 4
    case Sent => 2
    case Leaving => 1
    case Gone => 0
  }

  function Rank(b: Batch): int {
    Total(b.stages, WorkLeft) - (if b.slotTaken then 1 else 0) + |b.channel|
    + (if b.phase == Spawning then 2 else if b.phase == Collecting then 1 else 0)
    + (if b.closed then 0 else 1)
  }

  lemma StepLowersRank(l: Limits, n: nat, b: Batch, s: Step)
    requires StartedInv(n, b) && PhaseInv(n, b) && Enabled(l, b, s)
    ensures Rank(Apply(l, b, s)) < Rank(b)
  {
    if Moves(s) {
      TotalUpdate(b.stages, Moved(b, s), NewStage(s), WorkLeft);
    }
  }

  lemma {:induction false} RunsAreBounded(l: Limits, n: nat, b: Batch, steps: seq<Step>, b': Batch)
    requires Inv(l, n, b) && Runs(l, n, b, steps, b')
    ensures |steps| <= Rank(b)
    decreases |steps|
  {
    if steps == [] {
    } else {
      StepLowersRank(l, n, b, steps[0]);
      StepPreservesInv(l, n, b, steps[0]);
      RunsAreBounded(l, n, Apply(l, b, steps[0]), steps[1..], b');
    }
  }

  lemma {:induction false} AllUnstarted(n: nat)
    ensures Total(seq(n, _ => Unstarted), WorkLeft) == 6 * n
  {
    if n > 0 {
      AllUnstarted(n - 1);
      assert seq(n, _ => Unstarted)[1..] == seq(n - 1, _ => Unstarted);
    }
  }

  /** Every batch finishes, whatever the scheduling: at most 6n + 3 steps, and never stuck before the end. */
  lemma EveryBatchFinishes(l: Limits, n: nat, steps: seq<Step>, b: Batch)
    requires Runs(l, n, Initial(n), steps, b)
    ensures |steps| <= 6 * n + 3
    ensures b.phase != Finished ==> exists s :: Enabled(l, b, s)
  {
    InitialInv(l, n);
    AllUnstarted(n);
    RunsAreBounded(l, n, Initial(n), steps, b);
    RunPreservesInv(l, n, Initial(n), steps, b);
    if b.phase != Finished {
      var s := SomeStep(l, n, b);
    }
  }

  /** A finished batch has every slot filled with the outcome of the payload of that index. */
  lemma FinishedBatchIsComplete(l: Limits, n: nat, b: Batch, i: nat)
    requires Reachable(l, n, b) && b.phase == Finished && i < n
    ensures |b.results| == n && i in b.produced && b.results[i] == Some(b.produced[i])
  {
    ReachableInv(l, n, b);
    TotalBounds(b.stages, i, Awaited);
    assert !InChannel(b.channel, i);
  }

  /** And no slot is written twice: a result arriving for a slot always finds it empty. */
  lemma SlotsAreFilledOnce(l: Limits, n: nat, b: Batch)
    requires Reachable(l, n, b) && Enabled(l, b, Collect)
    ensures b.results[b.channel[0].index].None?
  {
    ReachableInv(l, n, b);
    assert !Filled(b.results, b.channel[0].index);
  }

  // ------------------------------------------------------------------ the collecting loop

  /** Whatever the order of arrival, slot i ends up with the outcome of payload i. */
  method CollectInOrder(arrivals: seq<Item>, n: nat) returns (results: array<Option<Outcome>>)
    requires forall k :: 0 <= k < |arrivals| ==> arrivals[k].index < n
    requires forall j, k :: 0 <= j < k < |arrivals| ==> arrivals[j].index != arrivals[k].index
    ensures fresh(results) && results.Length == n
    ensures forall k :: 0 <= k < |arrivals| ==> results[arrivals[k].index] == Some(arrivals[k].outcome)
    ensures forall i :: 0 <= i < n && results[i].Some? ==>
              exists k :: 0 <= k < |arrivals| && arrivals[k] == Item(i, results[i].value)
  {
    results := new Option<Outcome>[n](_ => None);
    for k := 0 to |arrivals|
      invariant forall j :: 0 <= j < k ==> results[arrivals[j].index] == Some(arrivals[j].outcome)
      invariant forall i :: 0 <= i < n && results[i].Some? ==>
                  exists j :: 0 <= j < k && arrivals[j] == Item(i, results[i].value)
    {
      results[arrivals[k].index] := Some(arrivals[k].outcome);
    }
  }
}

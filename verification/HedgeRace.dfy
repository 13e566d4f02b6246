/**
 The hedge race (gateway/hedge.go): a primary request, a hedge started when the primary is slow, one
 buffered channel, three timers, and a caller that may give up at any moment.

 Every goroutine is a part of one state. A step is one arm of one select, the completion of one
 request, the passing of time, or the caller's cancellation; any order the guards allow is a run.
 Times are in milliseconds.
 */
module HedgeRace {
  import opened Prelude

  const CAPACITY: nat := 2
  const SECOND_WAIT: int := 10_000
  const LOSER_WINDOW: int := 100
  const GRACE: int := 2_000

  datatype Result = Result(isHedge: bool, failed: bool, responses: nat, plausible: bool)

  /** A result that may win after the hedge delay: no transport error, a response, and one the
      heuristics accept. */
  predicate Acceptable(r: Result) { !r.failed && r.responses > 0 && r.plausible }

  datatype Label = Unset | PrimaryOnly | PrimaryWon | HedgeWon | NoHedge | BothFailed

  /** Not started, running, or done, with the time its result was sent. */
  datatype Branch = Idle | InFlight | Settled(at: int)

  datatype Phase =
    | BeforeDelay
    | AwaitFirst
    | AwaitLoser(winner: Result)
    | AwaitSecond(first: Result)
    | Returned(answer: Option<Result>)

  datatype Drain = Absent | Draining(left: nat, from: int) | Finished

  datatype Race = Race(
    now: int,
    since: int,
    callerGone: bool,
    phase: Phase,
    primary: Branch,
    hedge: Branch,
    channel: seq<Result>,
    dropped: nat,
    hedgeStarted: bool,
    delayElapsed: bool,
    winner: Option<Result>,
    losers: seq<Result>,
    abandoned: Option<Result>,
    outcome: Label,
    cancelled: bool,
    drain: Drain)

  /** What selecting and building the hedge came to when the delay elapsed. */
  datatype Hedging = Started | NoEndpoint | BuildFailed

  datatype Step =
    | Tick(dt: nat)
    | CallerLeaves
    | Complete(r: Result)
    | ReceiveEarly
    | DelayElapses(hedging: Hedging)
    | ReceiveFirst
    | ReceiveLoser
    | LoserWindowElapses
    | ReceiveSecond
    | SecondTimesOut
    | NoticeCallerGone
    | DrainReceives
    | DrainTimesOut

  /** The primary request has just been started. */
  function Initial(now: int): Race {
    Race(now, now, false, BeforeDelay, InFlight, Idle, [], 0, false, false, None, [], None, Unset, false, Absent)
  }

  function BranchOf(s: Race, isHedge: bool): Branch { if isHedge then s.hedge else s.primary }

  predicate Enabled(delay: int, s: Race, step: Step) {
    match step
    case Tick(_) => true
    case CallerLeaves => !s.callerGone
    case Complete(r) => BranchOf(s, r.isHedge) == InFlight
    case ReceiveEarly => s.phase == BeforeDelay && s.channel != []
    case DelayElapses(_) => s.phase == BeforeDelay && s.since + delay <= s.now
    case ReceiveFirst => s.phase == AwaitFirst && s.channel != []
    case ReceiveLoser => s.phase.AwaitLoser? && s.channel != []
    case LoserWindowElapses => s.phase.AwaitLoser? && s.since + LOSER_WINDOW <= s.now
    case ReceiveSecond => s.phase.AwaitSecond? && s.channel != []
    case SecondTimesOut => s.phase.AwaitSecond? && s.since + SECOND_WAIT <= s.now
    case NoticeCallerGone =>
      s.callerGone && (s.phase == BeforeDelay || s.phase == AwaitFirst || s.phase.AwaitSecond?)
    case DrainReceives => s.drain.Draining? && s.channel != []
    case DrainTimesOut => s.drain.Draining? && s.drain.from + GRACE <= s.now
  }

  /** sync.Once: only the first winner is recorded. */
  function Once(winner: Option<Result>, r: Result): Option<Result> {
    if winner.Some? then winner else Some(r)
  }

  function Sent(s: Race, r: Result): Race {
    var room := |s.channel| < CAPACITY;
    s.(primary := if r.isHedge then s.primary else Settled(s.now),
       hedge := if r.isHedge then Settled(s.now) else s.hedge,
       channel := if room then s.channel + [r] else s.channel,
       dropped := if room then s.dropped else s.dropped + 1)
  }

  function WinningLabel(hedgeStarted: bool, r: Result): Label {
    if !hedgeStarted then NoHedge else if r.isHedge then HedgeWon else PrimaryWon
  }

  function AfterEarly(s: Race): Race
    requires s.channel != []
  {
    var r := s.channel[0];
    s.(channel := s.channel[1..],
       winner := Once(s.winner, r),
       outcome := PrimaryOnly,
       cancelled := true,
       phase := Returned(Some(r)))
  }

  function AfterDelay(s: Race, hedging: Hedging): Race {
    s.(phase := AwaitFirst,
       since := s.now,
       delayElapsed := true,
       hedgeStarted := if hedging == NoEndpoint then s.hedgeStarted else hedging == Started,
       hedge := if hedging == Started then InFlight else s.hedge)
  }

  function AfterFirst(s: Race): Race
    requires s.channel != []
  {
    var r := s.channel[0];
    s.(channel := s.channel[1..],
       since := s.now,
       winner := if Acceptable(r) then Once(s.winner, r) else s.winner,
       outcome := if Acceptable(r) then WinningLabel(s.hedgeStarted, r) else s.outcome,
       phase := if Acceptable(r) then AwaitLoser(r) else AwaitSecond(r))
  }

  function AfterLoser(s: Race): Race
    requires s.phase.AwaitLoser? && s.channel != []
  {
    s.(channel := s.channel[1..],
       losers := s.losers + [s.channel[0]],
       cancelled := true,
       phase := Returned(Some(s.phase.winner)))
  }

  function AfterLoserWindow(s: Race): Race
    requires s.phase.AwaitLoser?
  {
    s.(drain := Draining(2, s.now), phase := Returned(Some(s.phase.winner)))
  }

  /** Both results are in: the race is decided between them. */
  function Decided(s: Race, won: Result, lost: Result, label_: Label): Race
    requires s.channel != []
  {
    s.(channel := s.channel[1..],
       winner := Once(s.winner, won),
       losers := s.losers + [lost],
       outcome := label_,
       cancelled := true,
       phase := Returned(Some(won)))
  }

  function AfterSecond(s: Race): Race
    requires s.phase.AwaitSecond? && s.channel != []
  {
    var first, second := s.phase.first, s.channel[0];
    if Acceptable(second) then Decided(s, second, first, if second.isHedge then HedgeWon else PrimaryWon)
    else Decided(s, first, second, BothFailed)
  }

  function AfterSecondTimeout(s: Race): Race
    requires s.phase.AwaitSecond?
  {
    s.(winner := Once(s.winner, s.phase.first),
       outcome := if s.hedgeStarted then BothFailed else NoHedge,
       drain := Draining(2, s.now),
       phase := Returned(Some(s.phase.first)))
  }

  function AfterCallerGone(s: Race): Race {
    s.(abandoned := if s.phase.AwaitSecond? then Some(s.phase.first) else None,
       drain := Draining(2, s.now),
       phase := Returned(None))
  }

  function AfterDrainReceives(s: Race): Race
    requires s.drain.Draining? && s.channel != []
  {
    s.(channel := s.channel[1..],
       losers := s.losers + [s.channel[0]],
       cancelled := s.cancelled || s.drain.left <= 1,
       drain := if s.drain.left <= 1 then Finished else Draining(s.drain.left - 1, s.now))
  }

  function AfterDrainTimesOut(s: Race): Race {
    s.(drain := Finished, cancelled := true)
  }

  function Apply(delay: int, s: Race, step: Step): Race
    requires Enabled(delay, s, step)
  {
    match step
    case Tick(dt) => s.(now := s.now + dt)
    case CallerLeaves => s.(callerGone := true)
    case Complete(r) => Sent(s, r)
    case ReceiveEarly => AfterEarly(s)
    case DelayElapses(hedging) => AfterDelay(s, hedging)
    case ReceiveFirst => AfterFirst(s)
    case ReceiveLoser => AfterLoser(s)
    case LoserWindowElapses => AfterLoserWindow(s)
    case ReceiveSecond => AfterSecond(s)
    case SecondTimesOut => AfterSecondTimeout(s)
    case NoticeCallerGone => AfterCallerGone(s)
    case DrainReceives => AfterDrainReceives(s)
    case DrainTimesOut => AfterDrainTimesOut(s)
  }

  ghost predicate Runs(delay: int, s: Race, steps: seq<Step>, s': Race)
    decreases |steps|
  {
    if steps == [] then s == s'
    else Enabled(delay, s, steps[0]) && Runs(delay, Apply(delay, s, steps[0]), steps[1..], s')
  }

  ghost predicate Reachable(delay: int, s: Race) {
    exists now, steps :: Runs(delay, Initial(now), steps, s)
  }

  // ------------------------------------------------------------------ where each result is

  function Count(rs: seq<Result>, isHedge: bool): nat {
    if rs == [] then 0 else (if rs[0].isHedge == isHedge then 1 else 0) + Count(rs[1..], isHedge)
  }

  function Has(r: Option<Result>, isHedge: bool): nat {
    if r.Some? && r.value.isHedge == isHedge then 1 else 0
  }

  /** The first result while it is held back in the hope of a better second one. */
  function HeldBack(s: Race): Option<Result> { if s.phase.AwaitSecond? then Some(s.phase.first) else None }

  /** How many places hold the result of one branch: still in flight, in the channel, held back,
      recorded as winner or loser, or abandoned to the caller's cancellation. */
  function Places(s: Race, isHedge: bool): nat {
    (if BranchOf(s, isHedge) == InFlight then 1 else 0) + Count(s.channel, isHedge) + Has(HeldBack(s), isHedge)
    + Has(s.winner, isHedge) + Count(s.losers, isHedge) + Has(s.abandoned, isHedge)
  }

  /** Conservation: the result of a started branch is in exactly one place, and none was dropped. */
  ghost predicate Conserved(s: Race) {
    && s.dropped == 0
    && Places(s, false) == (if s.primary == Idle then 0 else 1)
    && Places(s, true) == (if s.hedge == Idle then 0 else 1)
  }

  ghost predicate PhaseInv(s: Race) {
    match s.phase
    case BeforeDelay =>
      !s.delayElapsed && !s.hedgeStarted && s.winner.None? && s.outcome == Unset && s.losers == [] && s.drain == Absent
    case AwaitFirst => s.delayElapsed && s.winner.None? && s.outcome == Unset && s.losers == [] && s.drain == Absent
    case AwaitSecond(first) =>
      s.delayElapsed && s.winner.None? && s.outcome == Unset && s.losers == [] && s.drain == Absent && !Acceptable(first)
    case AwaitLoser(won) =>
      && s.delayElapsed && s.winner == Some(won) && Acceptable(won) && s.outcome == WinningLabel(s.hedgeStarted, won)
      && s.losers == [] && s.drain == Absent
    case Returned(None) => s.winner.None? && s.outcome == Unset
    case Returned(Some(r)) => s.winner == Some(r) && Labelled(s, r) && Justified(s, r)
  }

  /** An answer no caller wants: a transport error, no response at all, or one the heuristics reject. */
  ghost predicate Faulty(r: Result) { r.failed || r.responses == 0 || !r.plausible }

  /** The label says which branch won and whether a hedge ran. */
  ghost predicate Labelled(s: Race, r: Result) {
    && (s.outcome == PrimaryOnly <==> !s.delayElapsed)
    && (s.outcome == HedgeWon <==> r.isHedge && !Faulty(r))
    && (s.outcome == PrimaryWon <==> s.delayElapsed && s.hedgeStarted && !r.isHedge && !Faulty(r))
    && (s.outcome == NoHedge <==> s.delayElapsed && !s.hedgeStarted)
    && (s.outcome == BothFailed <==> s.delayElapsed && s.hedgeStarted && Faulty(r))
  }

  /** The other branch answered invalidly as well. */
  ghost predicate OtherFailed(s: Race, r: Result) {
    s.losers != [] && s.losers[0].isHedge != r.isHedge && Faulty(s.losers[0])
  }

  /** An invalid answer after the hedge delay means the other branch answered invalidly as well, or the
      whole time set for it has passed since the first result was received. */
  ghost predicate Justified(s: Race, r: Result) {
    s.delayElapsed && Faulty(r) ==> OtherFailed(s, r) || s.since + SECOND_WAIT <= s.now
  }

  ghost predicate Released(s: Race) {
    && (s.phase.Returned? ==> s.cancelled || s.drain.Draining?)
    && (s.drain == Finished ==> s.cancelled)
    && (!s.phase.Returned? ==> s.drain == Absent && !s.cancelled)
    && (s.drain.Draining? ==> s.drain.left <= 2)
  }

  ghost predicate BranchInv(s: Race) {
    && s.primary != Idle
    && (s.hedge != Idle <==> s.hedgeStarted)
    && (s.hedgeStarted ==> s.delayElapsed)
    && (s.phase.BeforeDelay? ==> !s.delayElapsed)
    && (!s.phase.Returned? ==> s.abandoned.None?)
  }

  ghost predicate Inv(s: Race) {
    Conserved(s) && PhaseInv(s) && Released(s) && BranchInv(s)
  }

  lemma {:induction false} CountAppend(rs: seq<Result>, r: Result, isHedge: bool)
    ensures Count(rs + [r], isHedge) == Count(rs, isHedge) + if r.isHedge == isHedge then 1 else 0
  {
    if rs == [] {
      assert [r][1..] == [];
    } else {
      CountAppend(rs[1..], r, isHedge);
      assert (rs + [r])[1..] == rs[1..] + [r];
    }
  }

  lemma {:induction false} CountIsLength(rs: seq<Result>)
    ensures Count(rs, false) + Count(rs, true) == |rs|
  {
    if rs != [] {
      CountIsLength(rs[1..]);
    }
  }

  /** A branch about to send always finds room in the channel. */
  lemma RoomToSend(s: Race, isHedge: bool)
    requires Conserved(s) && BranchOf(s, isHedge) == InFlight
    ensures |s.channel| < CAPACITY
  {
    CountIsLength(s.channel);
  }

  lemma CompletePreservesConserved(s: Race, r: Result)
    requires Conserved(s) && BranchOf(s, r.isHedge) == InFlight
    ensures Conserved(Sent(s, r))
  {
    RoomToSend(s, r.isHedge);
    CountAppend(s.channel, r, false);
    CountAppend(s.channel, r, true);
  }

  lemma LoserReceivedConserved(s: Race, s': Race)
    requires Conserved(s) && s.channel != [] && s'.primary == s.primary && s'.hedge == s.hedge && s'.dropped == s.dropped
    requires s'.losers == s.losers + [s.channel[0]] && s'.channel == s.channel[1..]
    requires s'.winner == s.winner && s'.abandoned == s.abandoned && HeldBack(s') == HeldBack(s)
    ensures Conserved(s')
  {
    CountAppend(s.losers, s.channel[0], false);
    CountAppend(s.losers, s.channel[0], true);
  }

  lemma SecondReceivedConserved(delay: int, s: Race)
    requires Inv(s) && Enabled(delay, s, ReceiveSecond)
    ensures Conserved(Apply(delay, s, ReceiveSecond))
  {
    var lost := if Acceptable(s.channel[0]) then s.phase.first else s.channel[0];
    CountAppend(s.losers, lost, false);
    CountAppend(s.losers, lost, true);
  }

  lemma StepPreservesConserved(delay: int, s: Race, step: Step)
    requires Inv(s) && Enabled(delay, s, step)
    ensures Conserved(Apply(delay, s, step))
  {
    if step.Complete? {
      CompletePreservesConserved(s, step.r);
    } else if step == ReceiveLoser || step == DrainReceives {
      LoserReceivedConserved(s, Apply(delay, s, step));
    } else if step == ReceiveSecond {
      SecondReceivedConserved(delay, s);
    }
  }

  /** What the receiver of the next result may conclude about it. */
  lemma NextResult(s: Race)
    requires Conserved(s) && BranchInv(s) && s.channel != []
    ensures s.channel[0].isHedge ==> s.hedgeStarted
    ensures s.phase.AwaitSecond? ==> s.phase.first.isHedge != s.channel[0].isHedge && s.hedgeStarted
    ensures !s.delayElapsed ==> !s.channel[0].isHedge
  {
    assert Count(s.channel, s.channel[0].isHedge) >= 1;
  }

  /** Once returned, only losers are added: the label and the justification of the answer stand. */
  lemma LateLosersKeepAnswer(s: Race, s': Race)
    requires PhaseInv(s) && s.phase.Returned? && s'.phase == s.phase && s'.winner == s.winner && s'.outcome == s.outcome
    requires s'.delayElapsed == s.delayElapsed && s'.hedgeStarted == s.hedgeStarted && s'.since == s.since && s.now <= s'.now
    requires s.losers <= s'.losers
    ensures PhaseInv(s')
  {
    if s.phase.answer.Some? {
      var r := s.phase.answer.value;
      assert Labelled(s', r);
      assert Justified(s', r);
    }
  }

  lemma StepPreservesPhase(delay: int, s: Race, step: Step)
    requires Inv(s) && Enabled(delay, s, step)
    ensures PhaseInv(Apply(delay, s, step))
  {
    if s.phase.Returned? {
      LateLosersKeepAnswer(s, Apply(delay, s, step));
    }
  }

  lemma StepPreservesReleased(delay: int, s: Race, step: Step)
    requires Released(s) && Enabled(delay, s, step)
    ensures Released(Apply(delay, s, step))
  {
  }

  lemma StepPreservesBranches(delay: int, s: Race, step: Step)
    requires BranchInv(s) && Enabled(delay, s, step)
    ensures BranchInv(Apply(delay, s, step))
  {
  }

  lemma StepPreservesInv(delay: int, s: Race, step: Step)
    requires Inv(s) && Enabled(delay, s, step)
    ensures Inv(Apply(delay, s, step))
  {
    StepPreservesConserved(delay, s, step);
    StepPreservesPhase(delay, s, step);
    StepPreservesReleased(delay, s, step);
    StepPreservesBranches(delay, s, step);
  }

  lemma {:induction false} RunPreservesInv(delay: int, s: Race, steps: seq<Step>, s': Race)
    requires Inv(s) && Runs(delay, s, steps, s')
    ensures Inv(s')
    decreases |steps|
  {
    if steps != [] {
      StepPreservesInv(delay, s, steps[0]);
      RunPreservesInv(delay, Apply(delay, s, steps[0]), steps[1..], s');
    }
  }

  lemma ReachableInv(delay: int, s: Race)
    requires Reachable(delay, s)
    ensures Inv(s)
  {
    var now, steps :| Runs(delay, Initial(now), steps, s);
    RunPreservesInv(delay, Initial(now), steps, s);
  }

  // ------------------------------------------------------------------ what holds in every race

  /** Neither send ever takes the drop branch: the channel always has room, and nothing was dropped. */
  lemma NoResultIsDropped(delay: int, s: Race, r: Result)
    requires Reachable(delay, s)
    ensures s.dropped == 0 && |s.channel| <= CAPACITY
    ensures Enabled(delay, s, Complete(r)) ==> Apply(delay, s, Complete(r)).channel == s.channel + [r]
  {
    ReachableInv(delay, s);
    CountIsLength(s.channel);
    if Enabled(delay, s, Complete(r)) {
      RoomToSend(s, r.isHedge);
    }
  }

  /** Each branch is recorded at most once, as winner or as loser but not both; and once both have
      settled and the channel is empty, every result is recorded unless the caller's cancellation
      caught the first one held back. */
  lemma EachBranchRecordedOnce(delay: int, s: Race, isHedge: bool)
    requires Reachable(delay, s)
    ensures Has(s.winner, isHedge) + Count(s.losers, isHedge) <= 1
    ensures s.phase.Returned? && s.channel == [] && BranchOf(s, isHedge).Settled? && Has(s.abandoned, isHedge) == 0
            ==> Has(s.winner, isHedge) + Count(s.losers, isHedge) == 1
  {
    ReachableInv(delay, s);
  }

  /** When the race returns, both detached contexts are cancelled or a drain is at work that will
      cancel them; a finished drain has. */
  lemma ContextsAreReleased(delay: int, s: Race)
    requires Reachable(delay, s) && s.phase.Returned?
    ensures s.cancelled || s.drain.Draining?
    ensures s.drain == Finished ==> s.cancelled
  {
    ReachableInv(delay, s);
  }

  /** The answer is the recorded winner, the label tells which branch it was and whether a hedge ran,
      and an invalid answer after the hedge delay is the last resort. */
  lemma AnswerAndLabelAgree(delay: int, s: Race)
    requires Reachable(delay, s) && s.phase.Returned?
    ensures match s.phase.answer
            case None => s.winner.None? && s.outcome == Unset
            case Some(r) => s.winner == Some(r) && Labelled(s, r) && Justified(s, r)
    ensures s.outcome == HedgeWon || s.outcome == PrimaryWon ==>
              s.winner.Some? && !s.winner.value.failed && s.winner.value.responses > 0 && s.winner.value.plausible
  {
    ReachableInv(delay, s);
  }

  // ------------------------------------------------------------------ receivers that lag

  /** A result is waiting for a receiver that would take it. */
  predicate Receiving(s: Race) {
    s.channel != [] && (!s.phase.Returned? || s.drain.Draining?)
  }

  /** Whatever is in the channel was sent no more than `lag` before `now`. */
  ghost predicate SentWithin(s: Race, lag: nat, now: int) {
    forall r :: r in s.channel ==> BranchOf(s, r.isHedge).Settled? && now - BranchOf(s, r.isHedge).at <= lag
  }

  /** Time passes only as long as no result has to wait more than `lag` for its receiver. */
  ghost predicate InTime(s: Race, lag: nat, step: Step) {
    step.Tick? && Receiving(s) ==> SentWithin(s, lag, s.now + step.dt)
  }

  /** A run whose receivers are held up by no more than `lag`. */
  ghost predicate LagRuns(delay: int, lag: nat, s: Race, steps: seq<Step>, s': Race)
    decreases |steps|
  {
    if steps == [] then s == s'
    else
      && Enabled(delay, s, steps[0]) && InTime(s, lag, steps[0])
      && LagRuns(delay, lag, Apply(delay, s, steps[0]), steps[1..], s')
  }

  ghost predicate LagReachable(delay: int, lag: nat, s: Race) {
    exists now, steps :: LagRuns(delay, lag, Initial(now), steps, s)
  }

  /** A branch that was never started, or sent nothing until `lag` before the time set for it was up. */
  predicate TooLateBut(s: Race, isHedge: bool, lag: nat) {
    match BranchOf(s, isHedge)
    case Idle => true
    case InFlight => s.since + SECOND_WAIT <= s.now
    case Settled(at) => s.since + SECOND_WAIT - lag <= at
  }

  /** A branch that was never started, or sent nothing before the time set for it was up. */
  predicate TooLate(s: Race, isHedge: bool) { TooLateBut(s, isHedge, 0) }

  ghost predicate LastResort(s: Race, lag: nat) {
    s.phase.Returned? && s.phase.answer.Some? && s.delayElapsed && Faulty(s.phase.answer.value) ==>
      OtherFailed(s, s.phase.answer.value) || TooLateBut(s, !s.phase.answer.value.isHedge, lag)
  }

  /** Until the race returns, no result has waited longer than `lag`. */
  ghost predicate Waited(s: Race, lag: nat) { !s.phase.Returned? ==> SentWithin(s, lag, s.now) }

  lemma StepKeepsWaited(delay: int, lag: nat, s: Race, step: Step)
    requires Inv(s) && Waited(s, lag) && Enabled(delay, s, step) && InTime(s, lag, step)
    ensures Waited(Apply(delay, s, step), lag)
  {
    if step.Complete? {
      RoomToSend(s, step.r.isHedge);
      OneEach(s, step.r.isHedge);
    }
  }

  /** A branch in flight has nothing in the channel yet. */
  lemma OneEach(s: Race, isHedge: bool)
    requires Conserved(s) && BranchOf(s, isHedge) == InFlight
    ensures forall r :: r in s.channel ==> r.isHedge != isHedge
  {
    NoneIn(s.channel, isHedge);
  }

  lemma {:induction false} NoneIn(rs: seq<Result>, isHedge: bool)
    ensures Count(rs, isHedge) == 0 ==> forall r :: r in rs ==> r.isHedge != isHedge
    ensures Count(rs, isHedge) > 0 ==> exists r :: r in rs && r.isHedge == isHedge
  {
    if rs != [] {
      NoneIn(rs[1..], isHedge);
      if Count(rs[1..], isHedge) > 0 {
        var r :| r in rs[1..] && r.isHedge == isHedge;
        assert r in rs;
      }
    }
  }

  /** When the wait for the second result times out, the other branch is too late but for the lag. */
  lemma TimeoutIsLastResort(delay: int, lag: nat, s: Race)
    requires Inv(s) && Waited(s, lag) && Enabled(delay, s, SecondTimesOut)
    ensures TooLateBut(AfterSecondTimeout(s), !s.phase.first.isHedge, lag)
  {
    var other := !s.phase.first.isHedge;
    if BranchOf(s, other).Settled? {
      assert Count(s.channel, other) > 0;
      NoneIn(s.channel, other);
    }
  }

  lemma StepKeepsLastResort(delay: int, lag: nat, s: Race, step: Step)
    requires Inv(s) && Waited(s, lag) && LastResort(s, lag) && Enabled(delay, s, step)
    ensures LastResort(Apply(delay, s, step), lag)
  {
    if step == SecondTimesOut {
      TimeoutIsLastResort(delay, lag, s);
    } else if step == ReceiveSecond {
      NextResult(s);
      var s' := Apply(delay, s, step);
      assert s'.losers == [if Acceptable(s.channel[0]) then s.phase.first else s.channel[0]];
    } else if s.phase.Returned? {
      assert s.losers <= Apply(delay, s, step).losers;
    }
  }

  lemma {:induction false} LagRunKeeps(delay: int, lag: nat, s: Race, steps: seq<Step>, s': Race)
    requires Inv(s) && Waited(s, lag) && LastResort(s, lag) && LagRuns(delay, lag, s, steps, s')
    ensures Inv(s') && LastResort(s', lag)
    decreases |steps|
  {
    if steps != [] {
      StepPreservesInv(delay, s, steps[0]);
      StepKeepsWaited(delay, lag, s, steps[0]);
      StepKeepsLastResort(delay, lag, s, steps[0]);
      LagRunKeeps(delay, lag, Apply(delay, s, steps[0]), steps[1..], s');
    }
  }

  /** With receivers held up by at most `lag`, an invalid answer after the hedge delay means that the
      other branch answered invalidly too, was never started, or sent nothing until `lag` before the time
      set for it after the first result was received. */
  lemma InvalidAnswerIsLastResort(delay: int, lag: nat, s: Race, r: Result)
    requires LagReachable(delay, lag, s) && s.phase == Returned(Some(r)) && s.delayElapsed
    requires r.failed || r.responses == 0 || !r.plausible
    ensures OtherFailed(s, r) || TooLateBut(s, !r.isHedge, lag)
  {
    var now, steps :| LagRuns(delay, lag, Initial(now), steps, s);
    LagRunKeeps(delay, lag, Initial(now), steps, s);
  }

  lemma {:induction false} LagExtend(delay: int, lag: nat, s: Race, steps: seq<Step>, s': Race, step: Step)
    requires LagRuns(delay, lag, s, steps, s') && Enabled(delay, s', step) && InTime(s', lag, step)
    ensures LagRuns(delay, lag, s, steps + [step], Apply(delay, s', step))
    decreases |steps|
  {
    if steps == [] {
      assert [step][1..] == [];
    } else {
      LagExtend(delay, lag, Apply(delay, s, steps[0]), steps[1..], s', step);
      assert (steps + [step])[1..] == steps[1..] + [step];
    }
  }

  lemma LagStepReaches(delay: int, lag: nat, s: Race, step: Step)
    requires LagReachable(delay, lag, s) && Enabled(delay, s, step) && InTime(s, lag, step)
    ensures LagReachable(delay, lag, Apply(delay, s, step))
  {
    var now, steps :| LagRuns(delay, lag, Initial(now), steps, s);
    LagExtend(delay, lag, Initial(now), steps, s, step);
  }

  /** The primary fails just as the hedge is started, and its result is held back. */
  lemma FailedPrimary(delay: int, lag: nat, r: Result) returns (s: Race)
    requires !r.isHedge && Faulty(r)
    ensures LagReachable(delay, lag, s) && s.phase == AwaitSecond(r) && s.since == s.now && s.delayElapsed
    ensures s.hedge == InFlight && s.channel == [] && s.losers == []
  {
    assert LagRuns(delay, lag, Initial(0), [], Initial(0));
    var s1 := Apply(delay, Initial(0), Tick(Max(0, delay)));
    LagStepReaches(delay, lag, Initial(0), Tick(Max(0, delay)));
    var s2 := AfterDelay(s1, Started);
    LagStepReaches(delay, lag, s1, DelayElapses(Started));
    var s3 := Sent(s2, r);
    LagStepReaches(delay, lag, s2, Complete(r));
    s := AfterFirst(s3);
    LagStepReaches(delay, lag, s3, ReceiveFirst);
  }

  /** The hedge answers just so late that its receiver may still be held up when the timer fires. */
  lemma LateHedge(delay: int, lag: nat, r: Result, good: Result) returns (s: Race)
    requires !r.isHedge && Faulty(r) && good.isHedge
    ensures LagReachable(delay, lag, s) && s.phase == AwaitSecond(r) && s.delayElapsed && s.losers == []
    ensures s.now == s.since + Max(0, SECOND_WAIT - lag) && s.hedge == Settled(s.now) && s.channel == [good]
  {
    var s1 := FailedPrimary(delay, lag, r);
    var s2 := Apply(delay, s1, Tick(Max(0, SECOND_WAIT - lag)));
    LagStepReaches(delay, lag, s1, Tick(Max(0, SECOND_WAIT - lag)));
    s := Sent(s2, good);
    LagStepReaches(delay, lag, s2, Complete(good));
  }

  /** However short the hold-up, a receiver held up that long may return the invalid first result though
      a valid second one was sent in time. */
  lemma HeldUpReceiverMayIgnoreAResult(delay: int, lag: nat) returns (s: Race, r: Result)
    requires lag > 0
    ensures LagReachable(delay, lag, s) && s.phase == Returned(Some(r)) && s.delayElapsed && Faulty(r)
    ensures !OtherFailed(s, r) && !TooLate(s, !r.isHedge) && s.channel != [] && !Faulty(s.channel[0])
  {
    r := Result(false, true, 0, false);
    var good := Result(true, false, 1, true);
    var s1 := LateHedge(delay, lag, r, good);
    var wait := Tick(Min(lag, SECOND_WAIT));
    var s2 := Apply(delay, s1, wait);
    LagStepReaches(delay, lag, s1, wait);
    s := AfterSecondTimeout(s2);
    LagStepReaches(delay, lag, s2, SecondTimesOut);
  }

  /** An invalid answer after the hedge delay is always a last resort exactly when no receiver is ever
      held up: whatever the delay, any lag at all is enough to break it. */
  lemma LastResortIffNoLag(delay: int, lag: nat)
    ensures (forall s, r :: LagReachable(delay, lag, s) && s.phase == Returned(Some(r)) && s.delayElapsed
                            && (r.failed || r.responses == 0 || !r.plausible)
               ==> OtherFailed(s, r) || TooLate(s, !r.isHedge))
            <==> lag == 0
  {
    if lag == 0 {
      forall s, r | LagReachable(delay, lag, s) && s.phase == Returned(Some(r)) && s.delayElapsed
                    && (r.failed || r.responses == 0 || !r.plausible)
        ensures OtherFailed(s, r) || TooLate(s, !r.isHedge)
      {
        InvalidAnswerIsLastResort(delay, lag, s, r);
      }
    } else {
      var s, r := HeldUpReceiverMayIgnoreAResult(delay, lag);
    }
  }

  lemma {:induction false} Extend(delay: int, s: Race, steps: seq<Step>, s': Race, step: Step)
    requires Runs(delay, s, steps, s') && Enabled(delay, s', step)
    ensures Runs(delay, s, steps + [step], Apply(delay, s', step))
    decreases |steps|
  {
    if steps == [] {
      assert [step][1..] == [];
    } else {
      Extend(delay, Apply(delay, s, steps[0]), steps[1..], s', step);
      assert (steps + [step])[1..] == steps[1..] + [step];
    }
  }

  lemma StepReaches(delay: int, s: Race, step: Step)
    requires Reachable(delay, s) && Enabled(delay, s, step)
    ensures Reachable(delay, Apply(delay, s, step))
  {
    var now, steps :| Runs(delay, Initial(now), steps, s);
    Extend(delay, Initial(now), steps, s, step);
  }

  lemma InitialReaches(delay: int, now: int)
    ensures Reachable(delay, Initial(now))
  {
    assert Runs(delay, Initial(now), [], Initial(now));
  }

  // ------------------------------------------------------------------ every race ends

  function PhaseRank(p: Phase): nat {
    match p
    case BeforeDelay => 12
    case AwaitFirst => 9
    case AwaitSecond(_) => 6
    case AwaitLoser(_) => 6
    case Returned(_) => 0
  }

  /** How many steps other than the passing of time a race still has ahead of it, at most. */
  function Rank(s: Race): nat {
    PhaseRank(s.phase)
    + (if s.primary == InFlight then 1 else 0)
    + (if s.hedge == InFlight then 1 else 0)
    + (if s.callerGone then 0 else 1)
    + (if s.drain.Draining? then s.drain.left + 1 else 0)
  }

  lemma StepLowersRank(delay: int, s: Race, step: Step)
    requires Inv(s) && Enabled(delay, s, step)
    ensures if step.Tick? then Rank(Apply(delay, s, step)) == Rank(s) else Rank(Apply(delay, s, step)) < Rank(s)
  {
  }

  function Actions(steps: seq<Step>): nat {
    if steps == [] then 0 else (if steps[0].Tick? then 0 else 1) + Actions(steps[1..])
  }

  lemma {:induction false} ActionsAreBounded(delay: int, s: Race, steps: seq<Step>, s': Race)
    requires Inv(s) && Runs(delay, s, steps, s')
    ensures Actions(steps) + Rank(s') <= Rank(s)
    decreases |steps|
  {
    if steps != [] {
      StepLowersRank(delay, s, steps[0]);
      StepPreservesInv(delay, s, steps[0]);
      ActionsAreBounded(delay, Apply(delay, s, steps[0]), steps[1..], s');
    }
  }

  predicate Over(s: Race) {
    s.phase.Returned? && !s.drain.Draining? && s.primary != InFlight && s.hedge != InFlight
  }

  /** Nothing but time is ever needed for the next action of a race that is not over. */
  lemma NeverStuck(delay: int, s: Race) returns (dt: nat, step: Step)
    requires Inv(s) && !Over(s)
    ensures !step.Tick? && Enabled(delay, Apply(delay, s, Tick(dt)), step)
  {
    dt := 0;
    if s.primary == InFlight {
      step := Complete(Result(false, true, 0, false));
    } else if s.hedge == InFlight {
      step := Complete(Result(true, true, 0, false));
    } else {
      match s.phase
      case BeforeDelay => dt, step := Max(0, s.since + delay - s.now), DelayElapses(NoEndpoint);
      case AwaitFirst =>
        assert Count(s.channel, false) == 1;
        step := ReceiveFirst;
      case AwaitSecond(_) => dt, step := Max(0, s.since + SECOND_WAIT - s.now), SecondTimesOut;
      case AwaitLoser(_) => dt, step := Max(0, s.since + LOSER_WINDOW - s.now), LoserWindowElapses;
      case Returned(_) => dt, step := Max(0, s.drain.from + GRACE - s.now), DrainTimesOut;
    }
  }

  /** Every race ends: it takes at most fourteen actions, can always take the next one after some time,
      and when none is left it has returned and released both contexts. */
  lemma EveryRaceEnds(delay: int, now: int, steps: seq<Step>, s: Race)
    requires Runs(delay, Initial(now), steps, s)
    ensures Actions(steps) <= 14
    ensures !Over(s) ==> exists dt: nat, step: Step :: !step.Tick? && Enabled(delay, Apply(delay, s, Tick(dt)), step)
    ensures Over(s) ==> s.phase.Returned? && s.cancelled
  {
    ActionsAreBounded(delay, Initial(now), steps, s);
    RunPreservesInv(delay, Initial(now), steps, s);
    if !Over(s) {
      var dt, step := NeverStuck(delay, s);
    }
  }

  // ------------------------------------------------------------------ the racer object

  /** A race has answered: with the recorded winner, under the right label, an invalid answer only as a
      last resort, and with both contexts cancelled or left to a drain. */
  ghost predicate Answered(s: Race, r: Result) {
    && s.phase == Returned(Some(r)) && s.winner == Some(r) && Labelled(s, r) && Justified(s, r)
    && (s.cancelled || s.drain.Draining?)
  }

  lemma ReturnAnswers(delay: int, s: Race, r: Result)
    requires Reachable(delay, s) && s.phase == Returned(Some(r))
    ensures Answered(s, r)
  {
    AnswerAndLabelAgree(delay, s);
    ContextsAreReleased(delay, s);
  }

  /** What the two results of a decided race are to each other. */
  lemma SecondDecides(delay: int, s: Race)
    requires Inv(s) && Enabled(delay, s, ReceiveSecond)
    ensures var s' := AfterSecond(s);
            && |s'.losers| == 1 && s'.losers[0].isHedge != s'.winner.value.isHedge
            && (Faulty(s'.winner.value) <==> Faulty(s.channel[0]))
            && (!Faulty(s'.winner.value) ==> s'.winner.value == s.channel[0])
  {
    NextResult(s);
  }

  lemma LoserIsTheOther(s: Race)
    requires Inv(s) && s.phase.AwaitLoser? && s.channel != []
    ensures s.channel[0].isHedge != s.phase.winner.isHedge
  {
    assert Count(s.channel, s.channel[0].isHedge) >= 1;
  }

  /** hedgeRacer. Each method is the code one select arm runs, one branch's completion, or something the
      outside world does; a racer is valid when its state is one a race can reach, so what holds in every
      race holds of it. */
  class HedgeRacer {
    const hedgeDelay: int
    var now: int
    var since: int
    var callerGone: bool
    var phase: Phase
    var primary: Branch
    var hedge: Branch
    var resultChan: seq<Result>
    var dropped: nat
    var hedgeStarted: bool
    var delayElapsed: bool
    var winner: Option<Result>
    var losers: seq<Result>
    var abandoned: Option<Result>
    var raceResult: Label
    var cancelled: bool
    var drain: Drain

    function State(): Race
      reads this
    {
      Race(now, since, callerGone, phase, primary, hedge, resultChan, dropped, hedgeStarted, delayElapsed,
           winner, losers, abandoned, raceResult, cancelled, drain)
    }

    ghost predicate Valid()
      reads this
    {
      Reachable(hedgeDelay, State())
    }

    ghost predicate Ready(step: Step)
      reads this
    {
      Valid() && Enabled(hedgeDelay, State(), step)
    }

    constructor (hedgeDelay: int, now: int)
      ensures Valid() && this.hedgeDelay == hedgeDelay && State() == Initial(now)
    {
      this.hedgeDelay := hedgeDelay;
      this.now, since, callerGone, phase := now, now, false, BeforeDelay;
      primary, hedge, resultChan, dropped := InFlight, Idle, [], 0;
      hedgeStarted, delayElapsed, winner, losers := false, false, None, [];
      abandoned, raceResult, cancelled, drain := None, Unset, false, Absent;
      new;
      InitialReaches(hedgeDelay, now);
    }

    /** Time passes. */
    method Elapse(dt: nat)
      requires Valid()
      modifies this`now
      ensures Valid() && now == old(now) + dt
    {
      StepReaches(hedgeDelay, State(), Tick(dt));
      now := now + dt;
    }

    /** The caller's context is cancelled. */
    method CallerLeaves()
      requires Ready(Step.CallerLeaves)
      modifies this`callerGone
      ensures Valid() && callerGone
    {
      StepReaches(hedgeDelay, State(), Step.CallerLeaves);
      callerGone := true;
    }

    /** The tail of executeRequest, a non-blocking send: it never drops the result. */
    method Send(r: Result)
      requires Ready(Complete(r))
      modifies this`primary, this`hedge, this`resultChan, this`dropped
      ensures Valid() && State() == Sent(old(State()), r)
      ensures resultChan == old(resultChan) + [r] && dropped == 0
      ensures |resultChan| <= CAPACITY
    {
      ghost var was := State();
      if r.isHedge {
        hedge := Settled(now);
      } else {
        primary := Settled(now);
      }
      if |resultChan| < CAPACITY {
        resultChan := resultChan + [r];
      } else {
        dropped := dropped + 1;
      }
      StepReaches(hedgeDelay, was, Complete(r));
      NoResultIsDropped(hedgeDelay, was, r);
      NoResultIsDropped(hedgeDelay, State(), r);
    }

    /** The primary answered before the hedge delay: no hedge ran, and the race is over. */
    method OnEarlyResult() returns (answer: Result)
      requires Ready(ReceiveEarly)
      modifies this`resultChan, this`winner, this`raceResult, this`cancelled, this`phase
      ensures Valid() && State() == AfterEarly(old(State()))
      ensures Answered(State(), answer) && raceResult == PrimaryOnly && cancelled
      ensures !answer.isHedge && !hedgeStarted && hedge == Idle && losers == []
    {
      ghost var was := State();
      StepReaches(hedgeDelay, was, ReceiveEarly);
      ReachableInv(hedgeDelay, was);
      NextResult(was);
      answer := resultChan[0];
      resultChan, winner, raceResult := resultChan[1..], Once(winner, answer), PrimaryOnly;
      cancelled, phase := true, Returned(Some(answer));
      ReturnAnswers(hedgeDelay, State(), answer);
    }

    /** The hedge delay elapsed: a hedge runs from now on exactly when there is an endpoint and its
        context can be built, and nothing has been decided yet. */
    method OnDelay(hedging: Hedging)
      requires Ready(DelayElapses(hedging))
      modifies this`delayElapsed, this`since, this`hedgeStarted, this`hedge, this`phase
      ensures Valid() && State() == AfterDelay(old(State()), hedging)
      ensures hedgeStarted == (hedging == Started) && hedge == (if hedgeStarted then InFlight else Idle)
      ensures winner.None? && raceResult == Unset && !cancelled
    {
      ghost var was := State();
      StepReaches(hedgeDelay, was, DelayElapses(hedging));
      ReachableInv(hedgeDelay, was);
      if hedging != NoEndpoint {
        if hedging == BuildFailed {
          hedgeStarted := false;
        } else {
          hedgeStarted, hedge := true, InFlight;
        }
      }
      delayElapsed, since, phase := true, now, AwaitFirst;
    }

    /** The first result wins: label the race and give the loser its short window. */
    method Adopt(first: Result)
      requires resultChan != [] && first == resultChan[0]
      modifies this`resultChan, this`since, this`winner, this`raceResult, this`phase
      ensures State() == old(State()).(channel := old(resultChan)[1..], since := now, winner := Once(old(winner), first),
                                       outcome := WinningLabel(hedgeStarted, first), phase := AwaitLoser(first))
    {
      if hedgeStarted {
        raceResult := if first.isHedge then HedgeWon else PrimaryWon;
      } else {
        raceResult := NoHedge;
      }
      resultChan, since, winner, phase := resultChan[1..], now, Once(winner, first), AwaitLoser(first);
    }

    /** waitForWinner, first select: a valid result wins at once, an invalid one is held back and
        nothing is recorded. */
    method OnFirstResult() returns (first: Result)
      requires Ready(ReceiveFirst)
      modifies this`resultChan, this`since, this`winner, this`raceResult, this`phase
      ensures Valid() && State() == AfterFirst(old(State())) && first == old(resultChan)[0]
      ensures winner == (if !first.failed && first.responses > 0 && first.plausible then Some(first) else None)
      ensures raceResult == if winner.None? then Unset
                            else if !hedgeStarted then NoHedge
                            else if first.isHedge then HedgeWon else PrimaryWon
      ensures phase == if winner.Some? then AwaitLoser(first) else AwaitSecond(first)
      ensures first.isHedge ==> hedgeStarted
    {
      ghost var was := State();
      StepReaches(hedgeDelay, was, ReceiveFirst);
      ReachableInv(hedgeDelay, was);
      NextResult(was);
      first := resultChan[0];
      if Acceptable(first) {
        Adopt(first);
      } else {
        resultChan, since, phase := resultChan[1..], now, AwaitSecond(first);
      }
    }

    /** collectLoserSync, first phase: the other branch is recorded as the loser of a valid winner. */
    method OnLoser() returns (answer: Result)
      requires Ready(ReceiveLoser)
      modifies this`resultChan, this`losers, this`cancelled, this`phase
      ensures Valid() && State() == AfterLoser(old(State()))
      ensures Answered(State(), answer) && !Faulty(answer) && cancelled
      ensures |losers| == 1 && losers[0].isHedge != answer.isHedge
    {
      ghost var was := State();
      StepReaches(hedgeDelay, was, ReceiveLoser);
      ReachableInv(hedgeDelay, was);
      LoserIsTheOther(was);
      answer := phase.winner;
      losers := losers + [resultChan[0]];
      resultChan := resultChan[1..];
      cancelled := true;
      phase := Returned(Some(answer));
      ReturnAnswers(hedgeDelay, State(), answer);
    }

    /** collectLoserSync, second phase: a valid winner is returned and the loser is left to the drain. */
    method OnLoserWindow() returns (answer: Result)
      requires Ready(LoserWindowElapses)
      modifies this`drain, this`phase
      ensures Valid() && State() == AfterLoserWindow(old(State()))
      ensures Answered(State(), answer) && !Faulty(answer) && drain.Draining? && losers == []
    {
      ghost var was := State();
      StepReaches(hedgeDelay, was, LoserWindowElapses);
      ReachableInv(hedgeDelay, was);
      answer := phase.winner;
      drain := Draining(2, now);
      phase := Returned(Some(answer));
      ReturnAnswers(hedgeDelay, State(), answer);
    }

    /** Both results are in: record them, label the race and release the contexts. */
    method Decide(won: Result, lost: Result, verdict: Label)
      requires resultChan != []
      modifies this`resultChan, this`winner, this`losers, this`raceResult, this`cancelled, this`phase
      ensures State() == Decided(old(State()), won, lost, verdict)
    {
      resultChan, winner, losers := resultChan[1..], Once(winner, won), losers + [lost];
      raceResult, cancelled, phase := verdict, true, Returned(Some(won));
    }

    /** waitForWinner, second select: the answer is valid exactly when the second result is, and the
        other one is recorded as the loser. */
    method OnSecondResult() returns (answer: Result)
      requires Ready(ReceiveSecond)
      modifies this`resultChan, this`winner, this`losers, this`raceResult, this`cancelled, this`phase
      ensures Valid() && State() == AfterSecond(old(State()))
      ensures Answered(State(), answer) && cancelled
      ensures var second := old(resultChan)[0];
              var good := !second.failed && second.responses > 0 && second.plausible;
              && answer == (if good then second else old(phase).first)
              && raceResult == (if !good then BothFailed else if second.isHedge then HedgeWon else PrimaryWon)
              && (good <==> !answer.failed && answer.responses > 0 && answer.plausible)
      ensures |losers| == 1 && losers[0].isHedge != answer.isHedge
    {
      ghost var was := State();
      StepReaches(hedgeDelay, was, ReceiveSecond);
      ReachableInv(hedgeDelay, was);
      SecondDecides(hedgeDelay, was);
      var first, second := phase.first, resultChan[0];
      if Acceptable(second) {
        answer := second;
        Decide(second, first, if second.isHedge then HedgeWon else PrimaryWon);
      } else {
        answer := first;
        Decide(first, second, BothFailed);
      }
      ReturnAnswers(hedgeDelay, State(), answer);
    }

    /** The second result did not come: the invalid first one is the answer, after the whole wait. */
    method OnSecondTimeout() returns (answer: Result)
      requires Ready(SecondTimesOut)
      modifies this`winner, this`raceResult, this`drain, this`phase
      ensures Valid() && State() == AfterSecondTimeout(old(State()))
      ensures Answered(State(), answer) && Faulty(answer) && drain.Draining?
      ensures since + SECOND_WAIT <= now && raceResult == (if hedgeStarted then BothFailed else NoHedge)
    {
      ghost var was := State();
      StepReaches(hedgeDelay, was, SecondTimesOut);
      ReachableInv(hedgeDelay, was);
      answer := phase.first;
      var verdict := if hedgeStarted then BothFailed else NoHedge;
      winner, raceResult, drain, phase := Once(winner, answer), verdict, Draining(2, now), Returned(Some(answer));
      ReturnAnswers(hedgeDelay, State(), answer);
    }

    /** The caller gave up before the race was decided: nobody won, no label is recorded, and the
        branches are left to the drain. */
    method OnCallerGone()
      requires Ready(NoticeCallerGone)
      modifies this`abandoned, this`drain, this`phase
      ensures Valid() && State() == AfterCallerGone(old(State()))
      ensures phase == Returned(None) && drain.Draining? && winner.None? && raceResult == Unset && losers == []
    {
      ghost var was := State();
      StepReaches(hedgeDelay, was, NoticeCallerGone);
      ReachableInv(hedgeDelay, was);
      var first := if phase.AwaitSecond? then Some(phase.first) else None;
      abandoned, drain, phase := first, Draining(2, now), Returned(None);
    }

    /** One pass of the drain's loop: the answer stands, no branch is recorded twice, and both contexts
        are cancelled when it stops. */
    method DrainOnce(received: bool)
      requires Ready(if received then DrainReceives else DrainTimesOut)
      modifies this`resultChan, this`losers, this`drain, this`cancelled
      ensures Valid()
      ensures State() == if received then AfterDrainReceives(old(State())) else AfterDrainTimesOut(old(State()))
      ensures phase == old(phase) && winner == old(winner) && raceResult == old(raceResult)
      ensures !drain.Draining? ==> cancelled
      ensures forall isHedge :: Has(winner, isHedge) + Count(losers, isHedge) <= 1
    {
      ghost var was := State();
      StepReaches(hedgeDelay, was, if received then DrainReceives else DrainTimesOut);
      if received {
        losers, resultChan := losers + [resultChan[0]], resultChan[1..];
      }
      if received && drain.left > 1 {
        drain := Draining(drain.left - 1, now);
      } else {
        drain, cancelled := Finished, true;
      }
      EachBranchRecordedOnce(hedgeDelay, State(), false);
      EachBranchRecordedOnce(hedgeDelay, State(), true);
    }
  }

  // ------------------------------------------------------------------ the hedge endpoint

  /** An endpoint a hedge may target: another endpoint, of another operator when the primary's is known. */
  predicate MayHedge(operatorOf: string -> string, primary: string, ep: string) {
    ep != primary && (operatorOf(primary) != "" ==> operatorOf(ep) != operatorOf(primary))
  }

  /** selectHedgeEndpoint: empty exactly when no endpoint may be hedged to, otherwise one that may. The
      ranking is free to pick any member of the list it is given. */
  method SelectHedgeEndpoint(operatorOf: string -> string, endpoints: seq<string>, primary: string,
                             rank: seq<string> -> string)
    returns (hedge: string)
    requires forall eps :: eps != [] ==> rank(eps) in eps
    requires "" !in endpoints
    ensures hedge == "" <==> forall ep :: ep in endpoints ==> !MayHedge(operatorOf, primary, ep)
    ensures hedge != "" ==> hedge in endpoints && hedge != primary
    ensures hedge != "" && operatorOf(primary) != "" ==> operatorOf(hedge) != operatorOf(primary)
  {
    var primaryDomain := operatorOf(primary);
    var filtered: seq<string> := [];
    for i := 0 to |endpoints|
      invariant forall ep :: ep in filtered <==> ep in endpoints[..i] && MayHedge(operatorOf, primary, ep)
    {
      var ep := endpoints[i];
      if ep != primary && !(primaryDomain != "" && operatorOf(ep) == primaryDomain) {
        filtered := filtered + [ep];
      }
    }
    assert endpoints[..|endpoints|] == endpoints;
    if filtered == [] {
      return "";
    }
    hedge := rank(filtered);
  }
}

/**
 A tunnel that is closed when it has been idle. Two copies run at the same time, one in each direction, and
 report data only when they return. Times are nanoseconds.
 */
module Tunnel {

  const MIN_CHECK := 10_000_000

  /** How often a copy is woken: a few times per idle timeout. */
  function Check(idle: nat): (check: nat)
    ensures idle >= 40_000_000 ==> 4 * check <= idle < 4 * check + 4
    ensures idle < 40_000_000 ==> check == 10_000_000
  {
    if idle / 4 > MIN_CHECK then idle / 4 else MIN_CHECK
  }

  datatype Dir = Up | Down

  /** How a copy returned: at the end of the data, by its deadline, because the connection had been closed,
      or with some other error. */
  datatype End = Eof | Deadline | Closed | Broken

  datatype Fault = NoFault | IdleTimeout | Failure

  /** A copy since some time that has carried some bytes, one that has returned, or none any more. */
  datatype Pipe = Copying(since: int, carried: nat) | Deciding(since: int, end: End) | Done(fault: Fault)

  /** `last` is the shared time stamp. `reports` are the times at which a copy that carried data returned,
      `moves` the times at which data moved, and `moved` how many bytes did. */
  datatype State = State(
    now: int, last: int, up: Pipe, down: Pipe, totals: map<Dir, nat>, closed: bool, closes: nat, finished: bool,
    start: int, lastMove: int, reports: seq<int>, moves: seq<int>, moved: map<Dir, nat>)
  {
    function PipeOf(d: Dir): Pipe { if d == Up then up else down }

    function With(d: Dir, p: Pipe): State { if d == Up then this.(up := p) else this.(down := p) }
  }

  datatype Step =
    | Tick(to: int)
    | Move(d: Dir, bytes: nat)
    | Return(d: Dir, end: End)
    | Decide(d: Dir, halfCloses: bool)
    | Finish

  function Begin(now: int): State {
    State(now, now, Copying(now, 0), Copying(now, 0), map[Up := 0, Down := 0], false, 0, false, now, now, [], [],
          map[Up := 0, Down := 0])
  }

  predicate Enabled(idle: nat, s: State, step: Step) {
    match step
    case Tick(to) => to > s.now
    case Move(d, bytes) => s.PipeOf(d).Copying? && !s.closed && bytes > 0
    case Return(d, end) =>
      && s.PipeOf(d).Copying?
      && (end.Deadline? ==> idle > 0 && s.now >= s.PipeOf(d).since + Check(idle))
      && (end.Closed? ==> s.closed)
    case Decide(d, _) => s.PipeOf(d).Deciding?
    case Finish => s.up.Done? && s.down.Done? && !s.finished
  }

  function CloseBoth(s: State): State { if s.closed then s else s.(closed := true, closes := s.closes + 1) }

  function OnMove(s: State, d: Dir, bytes: nat): State
    requires s.PipeOf(d).Copying? && d in s.moved
  {
    var p := s.PipeOf(d);
    s.With(d, p.(carried := p.carried + bytes))
     .(lastMove := s.now, moves := s.moves + [s.now], moved := s.moved[d := s.moved[d] + bytes])
  }

  function OnReturn(s: State, d: Dir, end: End): State
    requires s.PipeOf(d).Copying? && d in s.totals
  {
    var p := s.PipeOf(d);
    var returned := s.With(d, Deciding(p.since, end)).(totals := s.totals[d := s.totals[d] + p.carried]);
    if p.carried > 0 then returned.(last := s.now, reports := s.reports + [s.now]) else returned
  }

  /** `finish`: at the end of the data the other direction goes on if the connection can be closed half. */
  function OnFinish(s: State, d: Dir, end: End, halfCloses: bool): State {
    if end.Eof? && halfCloses then s.With(d, Done(NoFault))
    else CloseBoth(s).With(d, Done(if end.Broken? then Failure else NoFault))
  }

  predicate IdleTooLong(idle: nat, s: State) { s.now - s.last >= idle }

  function OnDecide(idle: nat, s: State, d: Dir, halfCloses: bool): State
    requires s.PipeOf(d).Deciding?
  {
    var end := s.PipeOf(d).end;
    if !end.Deadline? then OnFinish(s, d, end, halfCloses)
    else if IdleTooLong(idle, s) then CloseBoth(s).With(d, Done(IdleTimeout))
    else s.With(d, Copying(s.now, 0))
  }

  function Apply(idle: nat, s: State, step: Step): State
    requires Enabled(idle, s, step) && Up in s.totals && Down in s.totals && Up in s.moved && Down in s.moved
  {
    match step
    case Tick(to) => s.(now := to)
    case Move(d, bytes) => OnMove(s, d, bytes)
    case Return(d, end) => OnReturn(s, d, end)
    case Decide(d, halfCloses) => OnDecide(idle, s, d, halfCloses)
    case Finish => CloseBoth(s).(finished := true)
  }

  predicate Counted(s: State) { Up in s.totals && Down in s.totals && Up in s.moved && Down in s.moved }

  predicate Follows(idle: nat, s: State, step: Step, s': State) {
    Enabled(idle, s, step) && Counted(s) && s' == Apply(idle, s, step)
  }

  ghost predicate IsRun(idle: nat, states: seq<State>, steps: seq<Step>) {
    && |states| == |steps| + 1 && states[0] == Begin(states[0].now)
    && (forall i :: 0 <= i < |steps| ==> Follows(idle, states[i], steps[i], states[i + 1]))
  }

  /** No time passes for a copy after its deadline, nor between its return and what comes of it. */
  predicate PromptPipe(idle: nat, p: Pipe, to: int) { !p.Deciding? && (p.Copying? && idle > 0 ==> to <= p.since + Check(idle)) }

  predicate PromptStep(idle: nat, s: State, step: Step) {
    step.Tick? ==> PromptPipe(idle, s.up, step.to) && PromptPipe(idle, s.down, step.to)
  }

  ghost predicate IsPrompt(idle: nat, states: seq<State>, steps: seq<Step>) {
    |states| == |steps| + 1 && forall i :: 0 <= i < |steps| ==> PromptStep(idle, states[i], steps[i])
  }

  // ---------------------------------------------------------------------------------------------
  // Every run

  function Carried(p: Pipe): nat { if p.Copying? then p.carried else 0 }

  predicate Balanced(s: State, d: Dir) { d in s.totals && d in s.moved && s.moved[d] == s.totals[d] + Carried(s.PipeOf(d)) }

  predicate Inv(s: State) {
    && s.start <= s.last <= s.now
    && (forall k :: 0 <= k < |s.reports| ==> s.reports[k] <= s.last)
    && Balanced(s, Up) && Balanced(s, Down)
    && s.closes == (if s.closed then 1 else 0) && (s.finished ==> s.closed && s.up.Done? && s.down.Done?)
  }

  lemma StepKeeps(idle: nat, s: State, step: Step)
    requires Inv(s) && Enabled(idle, s, step)
    ensures Inv(Apply(idle, s, step))
  {
    if step.Move? {
      MoveKeeps(s, step.d, step.bytes);
    } else if step.Return? {
      ReturnKeeps(s, step.d, step.end);
    } else if step.Decide? {
      DecideKeeps(idle, s, step.d, step.halfCloses);
    }
  }

  lemma MoveKeeps(s: State, d: Dir, bytes: nat)
    requires Inv(s) && s.PipeOf(d).Copying? && !s.closed
    ensures Inv(OnMove(s, d, bytes))
  {
  }

  lemma ReturnKeeps(s: State, d: Dir, end: End)
    requires Inv(s) && s.PipeOf(d).Copying?
    ensures Inv(OnReturn(s, d, end))
  {
  }

  lemma DecideKeeps(idle: nat, s: State, d: Dir, halfCloses: bool)
    requires Inv(s) && s.PipeOf(d).Deciding?
    ensures Inv(OnDecide(idle, s, d, halfCloses))
  {
  }

  lemma {:induction false} RunInv(idle: nat, states: seq<State>, steps: seq<Step>, n: nat)
    requires IsRun(idle, states, steps) && n <= |steps|
    ensures Inv(states[n]) && states[n].start == states[0].now
  {
    if n == 0 {
      BeginInv(states[0].now);
    } else {
      RunInv(idle, states, steps, n - 1);
      FollowsAt(idle, states, steps, n - 1);
      FollowKeeps(idle, states[n - 1], steps[n - 1], states[n]);
    }
  }

  lemma BeginInv(now: int)
    ensures Inv(Begin(now)) && Begin(now).start == now
  {
  }

  lemma FollowsAt(idle: nat, states: seq<State>, steps: seq<Step>, i: nat)
    requires IsRun(idle, states, steps) && i < |steps|
    ensures Follows(idle, states[i], steps[i], states[i + 1])
  {
  }

  lemma FollowKeeps(idle: nat, s: State, step: Step, s': State)
    requires Inv(s) && Follows(idle, s, step, s')
    ensures Inv(s') && s'.start == s.start
  {
    StepKeeps(idle, s, step);
  }

  /** The decision to close an idle tunnel. */
  predicate ClosesIdle(idle: nat, s: State, step: Step) {
    step.Decide? && s.PipeOf(step.d).Deciding? && s.PipeOf(step.d).end.Deadline? && IdleTooLong(idle, s)
  }

  /** A tunnel is closed as idle only if it is as old as the timeout, and for that long no copy that carried
      data has returned, in either direction. */
  lemma IdleMeansNoReports(idle: nat, states: seq<State>, steps: seq<Step>, n: nat)
    requires IsRun(idle, states, steps) && n < |steps| && ClosesIdle(idle, states[n], steps[n])
    ensures states[0].now <= states[n].now - idle
    ensures forall k :: 0 <= k < |states[n].reports| ==> states[n].reports[k] <= states[n].now - idle
    ensures states[n + 1].closed && states[n + 1].PipeOf(steps[n].d) == Done(IdleTimeout)
  {
    RunInv(idle, states, steps, n);
    assert Follows(idle, states[n], steps[n], states[n + 1]);
  }

  /** The connections are closed once, and when the tunnel is over all bytes that moved are in the totals. */
  lemma ClosedOnceAndCounted(idle: nat, states: seq<State>, steps: seq<Step>, n: nat)
    requires IsRun(idle, states, steps) && n <= |steps|
    ensures states[n].closes <= 1
    ensures states[n].finished ==> states[n].closes == 1 && states[n].totals == states[n].moved
  {
    RunInv(idle, states, steps, n);
    var s := states[n];
    if s.finished {
      forall d: Dir
        ensures d in s.totals && d in s.moved && s.totals[d] == s.moved[d]
      {
        assert d == Up || d == Down;
      }
    }
  }

  // ---------------------------------------------------------------------------------------------
  // Prompt runs

  /** A copy was last decided on less than the timeout after the last report, and has not overrun. */
  predicate OnTime(idle: nat, s: State, p: Pipe) {
    && (!p.Done? ==> p.since < s.last + idle && p.since <= s.now <= p.since + Check(idle))
    && (p.Copying? && p.carried > 0 ==> p.since <= s.lastMove && s.lastMove in s.moves)
  }

  /** Data that moved has been reported, or is carried by a copy that is not older. */
  predicate Known(s: State, m: int) {
    || m <= s.last
    || (s.up.Copying? && s.up.carried > 0 && s.up.since <= m)
    || (s.down.Copying? && s.down.carried > 0 && s.down.since <= m)
  }

  predicate PromptInv(idle: nat, s: State) {
    && OnTime(idle, s, s.up) && OnTime(idle, s, s.down)
    && s.last <= s.lastMove + Check(idle)
    && s.last <= s.now && s.lastMove <= s.now
    && (forall k :: 0 <= k < |s.moves| ==> s.moves[k] <= s.now && Known(s, s.moves[k]))
  }

  lemma PromptKeeps(idle: nat, s: State, step: Step)
    requires idle > 0 && Counted(s) && PromptInv(idle, s) && Enabled(idle, s, step) && PromptStep(idle, s, step)
    ensures PromptInv(idle, Apply(idle, s, step))
  {
    if step.Move? {
      MovePrompt(idle, s, step.d, step.bytes);
    } else if step.Return? {
      ReturnPrompt(idle, s, step.d, step.end);
    } else if step.Decide? {
      DecidePrompt(idle, s, step.d, step.halfCloses);
    }
  }

  lemma MovePrompt(idle: nat, s: State, d: Dir, bytes: nat)
    requires PromptInv(idle, s) && s.PipeOf(d).Copying? && d in s.moved && bytes > 0
    ensures PromptInv(idle, OnMove(s, d, bytes))
  {
    var s' := OnMove(s, d, bytes);
    assert s'.moves[|s.moves|] == s'.lastMove;
    forall k | 0 <= k < |s.moves|
      ensures Known(s', s'.moves[k])
    {
      assert Known(s, s.moves[k]);
    }
  }

  lemma ReturnPrompt(idle: nat, s: State, d: Dir, end: End)
    requires PromptInv(idle, s) && s.PipeOf(d).Copying? && d in s.totals
    ensures PromptInv(idle, OnReturn(s, d, end))
  {
  }

  lemma DecidePrompt(idle: nat, s: State, d: Dir, halfCloses: bool)
    requires PromptInv(idle, s) && s.PipeOf(d).Deciding?
    ensures PromptInv(idle, OnDecide(idle, s, d, halfCloses))
  {
    Replaced(idle, s, OnDecide(idle, s, d, halfCloses), d);
  }

  /** A pipe that has returned stops, or starts again with nothing carried. */
  lemma Replaced(idle: nat, s: State, s': State, d: Dir)
    requires PromptInv(idle, s) && s.PipeOf(d).Deciding?
    requires s'.up == (if d == Up then s'.PipeOf(d) else s.up) && s'.down == (if d == Down then s'.PipeOf(d) else s.down)
    requires s'.PipeOf(d).Done? || (s'.PipeOf(d) == Copying(s.now, 0) && s.now < s.last + idle)
    requires s'.now == s.now && s'.last == s.last && s'.lastMove == s.lastMove && s'.moves == s.moves
    ensures PromptInv(idle, s')
  {
    forall k | 0 <= k < |s.moves|
      ensures Known(s', s'.moves[k])
    {
      assert Known(s, s.moves[k]);
    }
  }

  lemma {:induction false} PromptRunInv(idle: nat, states: seq<State>, steps: seq<Step>, n: nat)
    requires idle > 0 && IsRun(idle, states, steps) && IsPrompt(idle, states, steps) && n <= |steps|
    ensures PromptInv(idle, states[n])
  {
    if n > 0 {
      PromptRunInv(idle, states, steps, n - 1);
      FollowsAt(idle, states, steps, n - 1);
      assert PromptStep(idle, states[n - 1], steps[n - 1]);
      PromptKeeps(idle, states[n - 1], steps[n - 1]);
    }
  }

  /** When a tunnel is closed as idle, no data has moved since the timeout began, but for the last check
      interval: what moves in it may not have been reported. */
  lemma IdleMeansNoData(idle: nat, states: seq<State>, steps: seq<Step>, n: nat)
    requires idle > 0 && IsRun(idle, states, steps) && IsPrompt(idle, states, steps)
    requires n < |steps| && ClosesIdle(idle, states[n], steps[n])
    ensures var s := states[n];
            forall k :: 0 <= k < |s.moves| ==> s.moves[k] <= s.now - idle || s.now - Check(idle) <= s.moves[k]
  {
    PromptRunInv(idle, states, steps, n);
  }

  /** A tunnel that was closed as idle although data had moved `delay` before. */
  ghost predicate ClosedAfterData(idle: nat, states: seq<State>, steps: seq<Step>, delay: int) {
    && IsRun(idle, states, steps) && IsPrompt(idle, states, steps) && steps != []
    && var n := |steps| - 1;
       ClosesIdle(idle, states[n], steps[n]) && states[n].now - delay in states[n].moves
  }

  /** The slack is one check interval, no less and no more, for every timeout: data that moved up to one check before
      the close may go unnoticed, data that moved earlier during the timeout never does. */
  lemma SlackIsOneCheck(idle: nat, delay: nat)
    requires delay < idle
    ensures (exists states, steps :: ClosedAfterData(idle, states, steps, delay)) <==> delay <= Check(idle)
  {
    if delay <= Check(idle) {
      var states, steps := ClosedWhileDataMoves(idle, delay, 0);
    }
    if states, steps :| ClosedAfterData(idle, states, steps, delay) {
      IdleMeansNoData(idle, states, steps, |steps| - 1);
    }
  }

  /** A tunnel in which nothing moves is over, in both directions, within the timeout and two checks. */
  lemma SilentTunnelEnds(idle: nat, states: seq<State>, steps: seq<Step>, n: nat)
    requires idle > 0 && IsRun(idle, states, steps) && IsPrompt(idle, states, steps) && n <= |steps|
    requires states[n].now >= states[n].lastMove + idle + 2 * Check(idle)
    ensures states[n].up.Done? && states[n].down.Done?
  {
    PromptRunInv(idle, states, steps, n);
  }

  /** Time can pass, or else something is due: promptness asks for nothing impossible. */
  lemma NeverStuck(idle: nat, states: seq<State>, steps: seq<Step>, n: nat) returns (step: Step)
    requires idle > 0 && IsRun(idle, states, steps) && IsPrompt(idle, states, steps) && n <= |steps|
    ensures Enabled(idle, states[n], step) && PromptStep(idle, states[n], step)
  {
    PromptRunInv(idle, states, steps, n);
    var s := states[n];
    if s.up.Deciding? {
      step := Decide(Up, true);
    } else if s.down.Deciding? {
      step := Decide(Down, true);
    } else if s.up.Copying? && s.now == s.up.since + Check(idle) {
      step := Return(Up, Deadline);
    } else if s.down.Copying? && s.now == s.down.since + Check(idle) {
      step := Return(Down, Deadline);
    } else {
      step := Tick(s.now + 1);
    }
  }

  // ---------------------------------------------------------------------------------------------
  // The slack is used

  ghost predicate RunTo(idle: nat, states: seq<State>, steps: seq<Step>, end: State) {
    IsRun(idle, states, steps) && IsPrompt(idle, states, steps) && states[|steps|] == end
  }

  lemma OneMore(idle: nat, states: seq<State>, steps: seq<Step>, s: State, step: Step, s': State)
    returns (states': seq<State>, steps': seq<Step>)
    requires RunTo(idle, states, steps, s) && Follows(idle, s, step, s') && PromptStep(idle, s, step)
    ensures RunTo(idle, states', steps', s') && states' == states + [s'] && steps' == steps + [step]
  {
    states', steps' := states + [s'], steps + [step];
    forall i | 0 <= i < |steps'|
      ensures Follows(idle, states'[i], steps'[i], states'[i + 1]) && PromptStep(idle, states'[i], steps'[i])
    {
      if i < |steps| {
        assert Follows(idle, states[i], steps[i], states[i + 1]) && PromptStep(idle, states[i], steps[i]);
      }
    }
  }

  /** Nothing has moved since the start, and both copies have just begun again. */
  function Silent(start: int, now: int): State {
    Begin(start).(now := now, up := Copying(now, 0), down := Copying(now, 0))
  }

  /** A copy that is woken without having carried anything leaves everything as it was. */
  lemma WokenUp(s: State, d: Dir)
    requires s.PipeOf(d).Copying? && s.PipeOf(d).carried == 0 && d in s.totals
    ensures OnReturn(s, d, Deadline) == s.With(d, Deciding(s.PipeOf(d).since, Deadline))
  {
    assert s.totals[d := s.totals[d] + 0] == s.totals;
  }

  /** One check in which nothing happens. */
  lemma SilentCheck(idle: nat, start: int, now: int, states: seq<State>, steps: seq<Step>)
    returns (states': seq<State>, steps': seq<Step>)
    requires idle > 0 && RunTo(idle, states, steps, Silent(start, now)) && now + Check(idle) < start + idle
    ensures RunTo(idle, states', steps', Silent(start, now + Check(idle)))
  {
    var later := now + Check(idle);
    var s1 := Silent(start, now).(now := later);
    var s2 := s1.(up := Deciding(now, Deadline));
    var s3 := s2.(down := Deciding(now, Deadline));
    var s4 := s3.(up := Copying(later, 0));
    WokenUp(s1, Up);
    WokenUp(s2, Down);
    states', steps' := OneMore(idle, states, steps, Silent(start, now), Tick(later), s1);
    states', steps' := OneMore(idle, states', steps', s1, Return(Up, Deadline), s2);
    states', steps' := OneMore(idle, states', steps', s2, Return(Down, Deadline), s3);
    states', steps' := OneMore(idle, states', steps', s3, Decide(Up, true), s4);
    states', steps' := OneMore(idle, states', steps', s4, Decide(Down, true), Silent(start, later));
  }

  /** Silence until the last check that begins before the timeout is over. */
  lemma {:induction false} SilentChecks(idle: nat, start: int, k: nat) returns (states: seq<State>, steps: seq<Step>)
    requires idle > 0 && k * Check(idle) < idle
    ensures RunTo(idle, states, steps, Silent(start, start + k * Check(idle)))
  {
    if k == 0 {
      states, steps := [Begin(start)], [];
    } else {
      states, steps := SilentChecks(idle, start, k - 1);
      states, steps := SilentCheck(idle, start, start + (k - 1) * Check(idle), states, steps);
    }
  }

  lemma LastCheck(idle: nat, check: nat) returns (k: nat)
    requires idle > 0 && check > 0
    ensures k * check < idle <= (k + 1) * check
  {
    k := (idle - 1) / check;
  }

  lemma Pass(idle: nat, states: seq<State>, steps: seq<Step>, s: State, to: int)
    returns (states': seq<State>, steps': seq<Step>)
    requires RunTo(idle, states, steps, s) && s.now <= to && Counted(s)
    requires PromptPipe(idle, s.up, to) && PromptPipe(idle, s.down, to)
    ensures RunTo(idle, states', steps', s.(now := to))
  {
    states', steps' := states, steps;
    if s.now < to {
      states', steps' := OneMore(idle, states, steps, s, Tick(to), s.(now := to));
    } else {
      assert s == s.(now := to);
    }
  }

  /** For every timeout and every delay of at most one check, a tunnel is closed as idle that long after data moved;
      with no delay, at the very moment. */
  lemma ClosedWhileDataMoves(idle: nat, delay: nat, start: int) returns (states: seq<State>, steps: seq<Step>)
    requires idle > 0 && delay <= Check(idle)
    ensures ClosedAfterData(idle, states, steps, delay)
  {
    var k := LastCheck(idle, Check(idle));
    states, steps := SilentChecks(idle, start, k);
    states, steps := DataAndClose(idle, start, start + k * Check(idle), delay, states, steps);
  }

  lemma DataAndClose(idle: nat, start: int, now: int, delay: nat, states: seq<State>, steps: seq<Step>)
    returns (states': seq<State>, steps': seq<Step>)
    requires idle > 0 && RunTo(idle, states, steps, Silent(start, now)) && delay <= Check(idle)
    requires start + idle <= now + Check(idle)
    ensures ClosedAfterData(idle, states', steps', delay)
  {
    var end := now + Check(idle);
    states', steps' := Pass(idle, states, steps, Silent(start, now), end - delay);
    var s1 := Silent(start, now).(now := end - delay);
    var s2 := OnMove(s1, Down, 1);
    states', steps' := OneMore(idle, states', steps', s1, Move(Down, 1), s2);
    states', steps' := Pass(idle, states', steps', s2, end);
    var s3 := s2.(now := end);
    WokenUp(s3, Up);
    var s4 := s3.(up := Deciding(now, Deadline));
    states', steps' := OneMore(idle, states', steps', s3, Return(Up, Deadline), s4);
    var close := Decide(Up, true);
    ghost var before := |steps'|;
    states', steps' := OneMore(idle, states', steps', s4, close, OnDecide(idle, s4, Up, true));
    assert states'[before] == s4 && s4.moves[0] == end - delay;
  }
}

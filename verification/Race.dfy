/**
 Dialing both address families at once. The two racers, the loop that waits for them and the goroutine
 that waits for a loser take steps in any order.
 */
module Race {

  datatype Racer = Primary | Fallback

  datatype Report = Conn(who: Racer) | Fail(who: Racer)

  datatype Phase = NotStarted | Dialing | Sending(report: Report) | Reported

  datatype Timer = Ticking | Fired | Taken

  datatype Main = Selecting | Won(who: Racer) | Lost

  datatype Drain = NoDrain | Draining | Drained

  const CHANNEL_CAPACITY := 2

  /** `connected` are the racers that connected, `returned` and `closed` what became of the connections, and
      `starts` how often the fallback was started. */
  datatype State = State(
    primary: Phase, fallback: Phase, results: seq<Report>,
    pending: int, fallbackStarted: bool, starts: nat, timer: Timer, errs: seq<Racer>, main: Main, drain: Drain,
    connected: set<Racer>, returned: seq<Racer>, closed: seq<Racer>)
  {
    function PhaseOf(who: Racer): Phase { if who == Primary then primary else fallback }

    function WithPhase(who: Racer, p: Phase): State {
      if who == Primary then this.(primary := p) else this.(fallback := p)
    }
  }

  datatype Step =
    | Dialed(who: Racer, connects: bool)
    | Send(who: Racer)
    | Fire
    | TakeTimer
    | TakeResult
    | DrainResult

  function Other(who: Racer): Racer { if who == Primary then Fallback else Primary }

  const START := State(Dialing, NotStarted, [], 1, false, 0, Ticking, [], Selecting, NoDrain, {}, [], [])

  predicate Enabled(s: State, step: Step) {
    match step
    case Dialed(who, _) => s.PhaseOf(who).Dialing?
    case Send(who) => s.PhaseOf(who).Sending? && |s.results| < CHANNEL_CAPACITY
    case Fire => s.main.Selecting? && s.timer.Ticking?
    case TakeTimer => s.main.Selecting? && s.timer.Fired?
    case TakeResult => s.main.Selecting? && s.results != []
    case DrainResult => s.drain.Draining? && s.results != []
  }

  function StartFallback(s: State): State {
    if s.fallbackStarted then s
    else s.(fallbackStarted := true, pending := s.pending + 1, fallback := Dialing, starts := s.starts + 1)
  }

  function OnDialed(s: State, who: Racer, connects: bool): State {
    if connects then s.WithPhase(who, Sending(Conn(who))).(connected := s.connected + {who})
    else s.WithPhase(who, Sending(Fail(who)))
  }

  function OnSend(s: State, who: Racer): State
    requires Enabled(s, Send(who))
  {
    s.WithPhase(who, Reported).(results := s.results + [s.PhaseOf(who).report])
  }

  function OnResult(s: State): State
    requires s.results != []
  {
    var r := s.results[0];
    var taken := s.(results := s.results[1..], pending := s.pending - 1);
    if r.Conn? then
      taken.(drain := if taken.pending > 0 then Draining else NoDrain, main := Won(r.who), returned := s.returned + [r.who])
    else
      var started := StartFallback(taken.(errs := s.errs + [r.who]));
      if started.pending == 0 then started.(main := Lost) else started
  }

  function OnDrain(s: State): State
    requires s.results != []
  {
    var r := s.results[0];
    var drained := s.(results := s.results[1..], drain := Drained);
    if r.Conn? then drained.(closed := s.closed + [r.who]) else drained
  }

  function Apply(s: State, step: Step): State
    requires Enabled(s, step)
  {
    match step
    case Dialed(who, connects) => OnDialed(s, who, connects)
    case Send(who) => OnSend(s, who)
    case Fire => s.(timer := Fired)
    case TakeTimer => StartFallback(s.(timer := Taken))
    case TakeResult => OnResult(s)
    case DrainResult => OnDrain(s)
  }

  /** The states of a run, each but the first by a step that was enabled. */
  ghost predicate IsRun(states: seq<State>, steps: seq<Step>) {
    && |states| == |steps| + 1 && states[0] == START
    && (forall i :: 0 <= i < |steps| ==> Follows(states[i], steps[i], states[i + 1]))
  }

  predicate Follows(s: State, step: Step, s': State) { Enabled(s, step) && s' == Apply(s, step) }

  // ---------------------------------------------------------------------------------------------
  // The invariant

  predicate Active(p: Phase) { p.Dialing? || p.Sending? }

  function One(b: bool): nat { if b then 1 else 0 }

  /** What a racer that has finished reports. */
  function ReportOf(s: State, who: Racer): Report { if who in s.connected then Conn(who) else Fail(who) }

  /** Whether a report has left the channel. */
  predicate Received(s: State, who: Racer) { who in s.errs || (s.main.Won? && (s.main.who == who || s.drain.Drained?)) }

  predicate Queued(s: State, who: Racer) { s.PhaseOf(who).Reported? && !Received(s, who) }

  /** The channel holds these reports, in some order, and no others. */
  predicate Channel(s: State, p: bool, f: bool) {
    var x, y := ReportOf(s, Primary), ReportOf(s, Fallback);
    if p && f then s.results == [x, y] || s.results == [y, x]
    else s.results == (if p then [x] else []) + (if f then [y] else [])
  }

  predicate RacerInv(s: State, who: Racer) {
    var p := s.PhaseOf(who);
    && (p.Sending? ==> p.report == ReportOf(s, who))
    && (who in s.connected ==> p.Sending? || p.Reported?)
    && (Received(s, who) ==> p.Reported?)
    && (who in s.errs ==> who !in s.connected)
  }

  /** The loop waits for exactly the reports that it has not received; those it has were failures. */
  predicate Waiting(s: State) {
    && s.pending == One(Active(s.primary)) + One(Active(s.fallback)) + One(Queued(s, Primary)) + One(Queued(s, Fallback)) > 0
    && s.returned == [] && s.closed == [] && s.drain.NoDrain?
  }

  /** A connection was returned. If the other racer may have another, somebody waits for it. */
  predicate Decided(s: State, winner: Racer) {
    var other := Other(winner);
    && s.returned == [winner] && winner in s.connected
    && match s.drain {
         case NoDrain => s.closed == [] && (s.PhaseOf(other).NotStarted? || other in s.errs)
         case Draining => s.closed == [] && !s.PhaseOf(other).NotStarted? && other !in s.errs
         case Drained => other !in s.errs && s.closed == if other in s.connected then [other] else []
       }
  }

  predicate GaveUp(s: State) {
    s.returned == [] && s.closed == [] && s.drain.NoDrain? && Primary in s.errs && Fallback in s.errs
  }

  predicate Inv(s: State) {
    && !s.primary.NotStarted? && (s.fallback.NotStarted? <==> !s.fallbackStarted) && s.starts == One(s.fallbackStarted)
    && RacerInv(s, Primary) && RacerInv(s, Fallback)
    && Channel(s, Queued(s, Primary), Queued(s, Fallback))
    && match s.main { case Selecting => Waiting(s) case Won(who) => Decided(s, who) case Lost => GaveUp(s) }
  }

  lemma DialedKeeps(s: State, who: Racer, connects: bool)
    requires Inv(s) && Enabled(s, Dialed(who, connects))
    ensures Inv(OnDialed(s, who, connects))
  {
  }

  lemma SendKeeps(s: State, who: Racer)
    requires Inv(s) && Enabled(s, Send(who))
    ensures Inv(OnSend(s, who))
  {
  }

  lemma TimerKeeps(s: State)
    requires Inv(s) && s.main.Selecting?
    ensures Inv(s.(timer := Fired)) && Inv(StartFallback(s.(timer := Taken)))
  {
  }

  lemma ConnKeeps(s: State)
    requires Inv(s) && Enabled(s, TakeResult) && s.results[0].Conn?
    ensures Inv(OnResult(s))
  {
  }

  lemma FailKeeps(s: State)
    requires Inv(s) && Enabled(s, TakeResult) && s.results[0].Fail?
    ensures Inv(OnResult(s))
  {
    var who := s.results[0].who;
    assert Queued(s, who);
  }

  lemma DrainKeeps(s: State)
    requires Inv(s) && Enabled(s, DrainResult)
    ensures Inv(OnDrain(s))
  {
  }

  lemma StepKeeps(s: State, step: Step)
    requires Inv(s) && Enabled(s, step)
    ensures Inv(Apply(s, step))
  {
    if step.Dialed? {
      DialedKeeps(s, step.who, step.connects);
    } else if step.Send? {
      SendKeeps(s, step.who);
    } else if step.DrainResult? {
      DrainKeeps(s);
    } else if step.TakeResult? {
      if s.results[0].Conn? {
        ConnKeeps(s);
      } else {
        FailKeeps(s);
      }
    } else {
      TimerKeeps(s);
    }
  }

  lemma {:induction false} RunInv(states: seq<State>, steps: seq<Step>, n: nat)
    requires IsRun(states, steps) && n <= |steps|
    ensures Inv(states[n])
  {
    if n == 0 {
      StartInv(states[0]);
    } else {
      RunInv(states, steps, n - 1);
      FollowKeeps(states[n - 1], steps[n - 1], states[n - 1 + 1]);
    }
  }

  lemma StartInv(s: State)
    requires s == START
    ensures Inv(s)
  {
  }

  lemma FollowKeeps(s: State, step: Step, s': State)
    requires Inv(s) && Follows(s, step, s')
    ensures Inv(s')
  {
    StepKeeps(s, step);
  }

  // ---------------------------------------------------------------------------------------------
  // What holds in every schedule

  /** A racer never has to wait to report. */
  lemma RacersNeverBlock(states: seq<State>, steps: seq<Step>, n: nat, who: Racer)
    requires IsRun(states, steps) && n <= |steps| && states[n].PhaseOf(who).Sending?
    ensures Enabled(states[n], Send(who))
  {
    RunInv(states, steps, n);
  }

  lemma FallbackStartsOnce(states: seq<State>, steps: seq<Step>, n: nat)
    requires IsRun(states, steps) && n <= |steps|
    ensures states[n].starts <= 1 && (states[n].starts == 0 <==> states[n].fallback.NotStarted?)
    ensures states[n].starts == 1 <==> states[n].timer.Taken? || Primary in states[n].errs
  {
    RunInv(states, steps, n);
    RunStarts(states, steps, n);
  }

  predicate StartedForReason(s: State) { s.starts == 1 <==> s.timer.Taken? || Primary in s.errs }

  lemma ReasonKept(s: State, step: Step, s': State)
    requires Inv(s) && StartedForReason(s) && Follows(s, step, s')
    ensures StartedForReason(s')
  {
    if step.TakeResult? {
      ReasonKeptByResult(s);
    }
  }

  lemma ReasonKeptByResult(s: State)
    requires Inv(s) && StartedForReason(s) && Enabled(s, TakeResult)
    ensures StartedForReason(OnResult(s))
  {
    if s.results[0].Fail? {
      assert Queued(s, s.results[0].who);
    }
  }

  lemma {:induction false} RunStarts(states: seq<State>, steps: seq<Step>, n: nat)
    requires IsRun(states, steps) && n <= |steps|
    ensures StartedForReason(states[n])
  {
    if n > 0 {
      RunStarts(states, steps, n - 1);
      RunInv(states, steps, n - 1);
      ReasonKept(states[n - 1], steps[n - 1], states[n - 1 + 1]);
    }
  }

  /** The loop takes the timer, or the news that the first family failed. */
  predicate CallsForFallback(s: State, step: Step) {
    step.TakeTimer? || (step.TakeResult? && s.results != [] && s.results[0] == Fail(Primary))
  }

  lemma CallIsSeen(s: State, step: Step, s': State)
    requires Follows(s, step, s')
    ensures s'.timer.Taken? <==> s.timer.Taken? || step.TakeTimer?
    ensures Primary in s'.errs <==> Primary in s.errs || (step.TakeResult? && s.results[0] == Fail(Primary))
  {
  }

  lemma {:induction false} CalledExactly(states: seq<State>, steps: seq<Step>, n: nat)
    requires IsRun(states, steps) && n <= |steps|
    ensures states[n].timer.Taken? || Primary in states[n].errs <==>
            exists j :: 0 <= j < n && CallsForFallback(states[j], steps[j])
  {
    if n > 0 {
      CalledExactly(states, steps, n - 1);
      CallIsSeen(states[n - 1], steps[n - 1], states[n - 1 + 1]);
    }
  }

  /** The second family is started when the timer is taken or the first family has failed, and not before. */
  lemma FallbackStartsExactly(states: seq<State>, steps: seq<Step>, n: nat)
    requires IsRun(states, steps) && n <= |steps|
    ensures !states[n].fallback.NotStarted? <==> exists j :: 0 <= j < n && CallsForFallback(states[j], steps[j])
  {
    FallbackStartsOnce(states, steps, n);
    CalledExactly(states, steps, n);
  }

  lemma ConnectedStep(s: State, step: Step, s': State, who: Racer)
    requires Follows(s, step, s')
    ensures who in s'.connected <==> who in s.connected || step == Dialed(who, true)
  {
  }

  /** A racer has a connection exactly if its dial succeeded. */
  lemma {:induction false} ConnectedExactly(states: seq<State>, steps: seq<Step>, n: nat, who: Racer)
    requires IsRun(states, steps) && n <= |steps|
    ensures who in states[n].connected <==> exists j :: 0 <= j < n && steps[j] == Dialed(who, true)
  {
    if n > 0 {
      ConnectedExactly(states, steps, n - 1, who);
      ConnectedStep(states[n - 1], steps[n - 1], states[n - 1 + 1], who);
    }
  }

  /** Where a connection is. */
  function Places(s: State, who: Racer): nat {
    One(s.PhaseOf(who).Sending?) + One(Conn(who) in s.results) + One(who in s.returned) + One(who in s.closed)
  }

  /** Every connection is in one place: with its racer, in the channel, with the caller, or closed. Only the
      connection of the winner is returned, once, and only one other can be closed, once. */
  lemma ConnectionsAccounted(states: seq<State>, steps: seq<Step>, n: nat, who: Racer)
    requires IsRun(states, steps) && n <= |steps|
    ensures who in states[n].connected ==> Places(states[n], who) == 1
    ensures who !in states[n].connected ==> who !in states[n].returned && who !in states[n].closed
    ensures |states[n].returned| <= 1 && |states[n].closed| <= 1
    ensures states[n].main == Won(who) <==> states[n].returned == [who]
  {
    RunInv(states, steps, n);
  }

  /** An error means that both families were started and both failed. */
  lemma ErrorMeansAllFailed(states: seq<State>, steps: seq<Step>, n: nat)
    requires IsRun(states, steps) && n <= |steps| && states[n].main.Lost?
    ensures states[n].starts == 1 && states[n].connected == {}
    ensures states[n].primary.Reported? && states[n].fallback.Reported?
  {
    RunInv(states, steps, n);
    var s := states[n];
    forall who: Racer
      ensures who !in s.connected
    {
      assert who == Primary || who == Fallback;
    }
  }

  /** Nobody is left waiting, and a loser's connection is not left open. */
  predicate Settled(s: State) {
    && !s.main.Selecting? && !s.drain.Draining? && !Active(s.primary) && !Active(s.fallback)
  }

  ghost predicate SomeStep(s: State) { exists step :: Enabled(s, step) }

  /** As long as something is not settled, something can happen. */
  lemma NeverStuck(states: seq<State>, steps: seq<Step>, n: nat)
    requires IsRun(states, steps) && n <= |steps|
    ensures Settled(states[n]) || SomeStep(states[n])
  {
    RunInv(states, steps, n);
    var s := states[n];
    if s.primary.Dialing? {
      assert Enabled(s, Dialed(Primary, true));
    } else if s.primary.Sending? {
      assert Enabled(s, Send(Primary));
    } else if s.fallback.Dialing? {
      assert Enabled(s, Dialed(Fallback, true));
    } else if s.fallback.Sending? {
      assert Enabled(s, Send(Fallback));
    } else if s.main.Selecting? {
      assert Enabled(s, TakeResult);
    } else if s.drain.Draining? {
      assert Enabled(s, DrainResult);
    }
  }

  function RacerWork(s: State, who: Racer): nat {
    match s.PhaseOf(who) case NotStarted => 3 case Dialing => 3 case Sending(_) => 2 case Reported => One(Queued(s, who))
  }

  function TimerWork(t: Timer): nat { match t case Ticking => 2 case Fired => 1 case Taken => 0 }

  /** The steps that can still be taken. */
  function Work(s: State): nat { RacerWork(s, Primary) + RacerWork(s, Fallback) + TimerWork(s.timer) }

  lemma WorkShrinks(s: State, step: Step)
    requires Inv(s) && Enabled(s, step)
    ensures Work(Apply(s, step)) < Work(s)
  {
    if step.TakeResult? {
      ResultIsWork(s);
    } else if step.DrainResult? {
      DrainIsWork(s);
    } else if step.Dialed? {
      DialIsWork(s, step.who, step.connects);
    }
  }

  lemma DialIsWork(s: State, who: Racer, connects: bool)
    requires Inv(s) && Enabled(s, Dialed(who, connects))
    ensures Work(OnDialed(s, who, connects)) < Work(s)
  {
  }

  lemma ResultIsWork(s: State)
    requires Inv(s) && Enabled(s, TakeResult)
    ensures Work(OnResult(s)) < Work(s)
  {
  }

  lemma DrainIsWork(s: State)
    requires Inv(s) && Enabled(s, DrainResult)
    ensures Work(OnDrain(s)) < Work(s)
  {
  }

  /** Every run ends, after eight steps at the latest. */
  lemma {:induction false} RunsEnd(states: seq<State>, steps: seq<Step>, n: nat)
    requires IsRun(states, steps) && n <= |steps|
    ensures n + Work(states[n]) <= 8
  {
    if n > 0 {
      RunsEnd(states, steps, n - 1);
      RunInv(states, steps, n - 1);
      assert Follows(states[n - 1], steps[n - 1], states[n]);
      WorkShrinks(states[n - 1], steps[n - 1]);
    }
  }

  /** When nothing more can happen, each connection has been returned or closed, and not both. */
  lemma AllSettledInTheEnd(states: seq<State>, steps: seq<Step>, who: Racer)
    requires IsRun(states, steps) && !SomeStep(states[|steps|]) && who in states[|steps|].connected
    ensures (who in states[|steps|].returned) != (who in states[|steps|].closed)
  {
    RunInv(states, steps, |steps|);
    NeverStuck(states, steps, |steps|);
  }

  lemma DecisionStays(s: State, step: Step, s': State)
    requires Follows(s, step, s') && !s.main.Selecting?
    ensures s'.main == s.main && s'.returned == s.returned
  {
  }

  /** The first connection that the loop receives is returned, whichever family it is of. */
  lemma {:induction false} FirstConnectionWins(states: seq<State>, steps: seq<Step>, n: nat, m: nat, who: Racer)
    requires IsRun(states, steps) && n < m <= |steps|
    requires steps[n].TakeResult? && states[n].results != [] && states[n].results[0] == Conn(who)
    ensures states[m].main == Won(who) && states[m].returned == [who]
    decreases m
  {
    if m == n + 1 {
      RunInv(states, steps, n);
      assert Follows(states[n], steps[n], states[n + 1]);
    } else {
      FirstConnectionWins(states, steps, n, m - 1, who);
      DecisionStays(states[m - 1], steps[m - 1], states[m - 1 + 1]);
    }
  }

  /** When nothing more can happen, the outcome is an error exactly if no dial succeeded. */
  lemma ErrorExactly(states: seq<State>, steps: seq<Step>)
    requires IsRun(states, steps) && !SomeStep(states[|steps|])
    ensures states[|steps|].main.Lost? <==> forall j, who :: 0 <= j < |steps| ==> steps[j] != Dialed(who, true)
  {
    var n := |steps|;
    RunInv(states, steps, n);
    NeverStuck(states, steps, n);
    ConnectedExactly(states, steps, n, Primary);
    ConnectedExactly(states, steps, n, Fallback);
    if states[n].main.Lost? {
      ErrorMeansAllFailed(states, steps, n);
      forall j, who | 0 <= j < n
        ensures steps[j] != Dialed(who, true)
      {
        assert who == Primary || who == Fallback;
      }
    }
  }
}

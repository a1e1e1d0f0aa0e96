/** Why a tunnel is closed, what becomes of its two directions, and what the records of a run hold. */
module TunnelEnds {
  import opened Tunnel

  function Opposite(d: Dir): Dir { if d == Up then Down else Up }

  /** The steps that close both connections: the end of the tunnel, a timeout, an error, and an end of data on a
      connection that cannot be closed half. */
  predicate Closes(idle: nat, s: State, step: Step) {
    || step.Finish?
    || (step.Decide? && s.PipeOf(step.d).Deciding? &&
        match s.PipeOf(step.d).end {
          case Eof => !step.halfCloses
          case Deadline => s.now - s.last >= idle
          case Closed => true
          case Broken => true
        })
  }

  lemma ClosedStep(idle: nat, s: State, step: Step, s': State)
    requires Follows(idle, s, step, s')
    ensures s'.closed <==> s.closed || Closes(idle, s, step)
  {
  }

  /** A tunnel is closed exactly if one of these steps was taken. */
  lemma {:induction false} ClosedExactly(idle: nat, states: seq<State>, steps: seq<Step>, n: nat)
    requires IsRun(idle, states, steps) && n <= |steps|
    ensures states[n].closed <==> exists j :: 0 <= j < n && Closes(idle, states[j], steps[j])
  {
    if n > 0 {
      ClosedExactly(idle, states, steps, n - 1);
      FollowsAt(idle, states, steps, n - 1);
      ClosedStep(idle, states[n - 1], steps[n - 1], states[n]);
    }
  }

  /** After an end of data on a connection that can be closed half, the other direction is as it was, and goes on
      moving data if it could before. */
  lemma HalfCloseLeavesOther(idle: nat, states: seq<State>, steps: seq<Step>, n: nat, d: Dir, bytes: nat)
    requires IsRun(idle, states, steps) && n < |steps| && steps[n] == Decide(d, true)
    requires states[n].PipeOf(d).Deciding? && states[n].PipeOf(d).end.Eof?
    ensures states[n + 1].PipeOf(Opposite(d)) == states[n].PipeOf(Opposite(d)) && states[n + 1].closed == states[n].closed
    ensures Enabled(idle, states[n], Move(Opposite(d), bytes)) ==> Enabled(idle, states[n + 1], Move(Opposite(d), bytes))
  {
    FollowsAt(idle, states, steps, n);
  }

  /** A direction that copies can move data until a step closes the tunnel. */
  lemma OpenUntilClosed(idle: nat, states: seq<State>, steps: seq<Step>, n: nat, d: Dir, bytes: nat)
    requires IsRun(idle, states, steps) && n <= |steps| && states[n].PipeOf(d).Copying? && bytes > 0
    ensures Enabled(idle, states[n], Move(d, bytes)) <==> forall j :: 0 <= j < n ==> !Closes(idle, states[j], steps[j])
  {
    ClosedExactly(idle, states, steps, n);
  }

  lemma StoppedStep(idle: nat, s: State, step: Step, s': State)
    requires Follows(idle, s, step, s') && s.closed
    ensures s'.closed && s'.moved == s.moved && s'.moves == s.moves
  {
  }

  /** After a step that closes the tunnel nothing moves, in either direction. */
  lemma {:induction false} StoppedForGood(idle: nat, states: seq<State>, steps: seq<Step>, n: nat, m: nat, d: Dir)
    requires IsRun(idle, states, steps) && n < m <= |steps| && Closes(idle, states[n], steps[n])
    ensures states[m].closed && states[m].moved == states[n].moved && states[m].moves == states[n].moves
    ensures forall bytes :: !Enabled(idle, states[m], Move(d, bytes))
    decreases m
  {
    FollowsAt(idle, states, steps, m - 1);
    if m == n + 1 {
      ClosedStep(idle, states[n], steps[n], states[m]);
    } else {
      StoppedForGood(idle, states, steps, n, m - 1, d);
      StoppedStep(idle, states[m - 1], steps[m - 1], states[m]);
    }
  }

  /** The decision that ends a direction with this result. */
  predicate EndsWith(idle: nat, s: State, step: Step, d: Dir, fault: Fault) {
    && step.Decide? && step.d == d && s.PipeOf(d).Deciding?
    && var end := s.PipeOf(d).end;
       match fault {
         case NoFault => end.Eof? || end.Closed?
         case IdleTimeout => end.Deadline? && s.now - s.last >= idle
         case Failure => end.Broken?
       }
  }

  lemma FaultStep(idle: nat, s: State, step: Step, s': State, d: Dir, fault: Fault)
    requires Follows(idle, s, step, s')
    ensures s'.PipeOf(d) == Done(fault) <==> s.PipeOf(d) == Done(fault) || EndsWith(idle, s, step, d, fault)
  {
    if step.Decide? {
      FaultDecided(idle, s, step.d, step.halfCloses, d, fault);
    }
  }

  lemma FaultDecided(idle: nat, s: State, e: Dir, halfCloses: bool, d: Dir, fault: Fault)
    requires s.PipeOf(e).Deciding?
    ensures OnDecide(idle, s, e, halfCloses).PipeOf(d) == Done(fault) <==>
            s.PipeOf(d) == Done(fault) || EndsWith(idle, s, Decide(e, halfCloses), d, fault)
  {
    if e == d {
      OwnFault(idle, s, d, halfCloses, fault);
    } else {
      OtherFault(idle, s, e, halfCloses, d);
    }
  }

  lemma OwnFault(idle: nat, s: State, d: Dir, halfCloses: bool, fault: Fault)
    requires s.PipeOf(d).Deciding?
    ensures OnDecide(idle, s, d, halfCloses).PipeOf(d) == Done(fault) <==> EndsWith(idle, s, Decide(d, halfCloses), d, fault)
  {
  }

  lemma OtherFault(idle: nat, s: State, e: Dir, halfCloses: bool, d: Dir)
    requires s.PipeOf(e).Deciding? && d != e
    ensures OnDecide(idle, s, e, halfCloses).PipeOf(d) == s.PipeOf(d)
  {
  }

  /** A direction ends without an error at the end of its data or because the tunnel was closed, with a timeout
      exactly if it found the tunnel idle, and with a failure exactly if its copy failed. */
  lemma {:induction false} FaultExactly(idle: nat, states: seq<State>, steps: seq<Step>, n: nat, d: Dir, fault: Fault)
    requires IsRun(idle, states, steps) && n <= |steps|
    ensures states[n].PipeOf(d) == Done(fault) <==> exists j :: 0 <= j < n && EndsWith(idle, states[j], steps[j], d, fault)
  {
    if n > 0 {
      FaultExactly(idle, states, steps, n - 1, d, fault);
      FollowsAt(idle, states, steps, n - 1);
      FaultStep(idle, states[n - 1], steps[n - 1], states[n], d, fault);
    }
  }

  /** A direction whose deadline passed too early copies on, and nothing else changes. */
  lemma WokenTooEarly(idle: nat, states: seq<State>, steps: seq<Step>, n: nat)
    requires IsRun(idle, states, steps) && n < |steps| && steps[n].Decide?
    requires states[n].PipeOf(steps[n].d).Deciding? && states[n].PipeOf(steps[n].d).end.Deadline?
    requires states[n].now - states[n].last < idle
    ensures states[n + 1] == states[n].With(steps[n].d, Copying(states[n].now, 0))
  {
    FollowsAt(idle, states, steps, n);
  }

  predicate NoDeadline(s: State, d: Dir) { s.PipeOf(d).Deciding? ==> !s.PipeOf(d).end.Deadline? }

  lemma NoDeadlineStep(s: State, step: Step, s': State, d: Dir)
    requires Follows(0, s, step, s') && NoDeadline(s, d)
    ensures NoDeadline(s', d)
  {
  }

  /** Without a timeout no tunnel is closed as idle. */
  lemma {:induction false} NeverIdleWithoutTimeout(states: seq<State>, steps: seq<Step>, n: nat, d: Dir)
    requires IsRun(0, states, steps) && n <= |steps|
    ensures NoDeadline(states[n], d)
    ensures n < |steps| && steps[n].Decide? && steps[n].d == d ==> !ClosesIdle(0, states[n], steps[n])
  {
    if n > 0 {
      NeverIdleWithoutTimeout(states, steps, n - 1, d);
      FollowsAt(0, states, steps, n - 1);
      NoDeadlineStep(states[n - 1], steps[n - 1], states[n], d);
    }
  }

  /** The bytes that the first steps of a run moved in one direction. */
  function BytesMoved(steps: seq<Step>, n: nat, d: Dir): nat
    requires n <= |steps|
  {
    if n == 0 then 0
    else BytesMoved(steps, n - 1, d) + match steps[n - 1] { case Move(e, bytes) => if e == d then bytes else 0 case _ => 0 }
  }

  lemma MovedStep(idle: nat, s: State, step: Step, s': State, d: Dir)
    requires Follows(idle, s, step, s') && d in s.moved
    ensures d in s'.moved && s'.moved[d] == s.moved[d] + if step.Move? && step.d == d then step.bytes else 0
  {
  }

  lemma {:induction false} MovedExactly(idle: nat, states: seq<State>, steps: seq<Step>, n: nat, d: Dir)
    requires IsRun(idle, states, steps) && n <= |steps|
    ensures d in states[n].moved && states[n].moved[d] == BytesMoved(steps, n, d)
  {
    if n > 0 {
      MovedExactly(idle, states, steps, n - 1, d);
      FollowsAt(idle, states, steps, n - 1);
      MovedStep(idle, states[n - 1], steps[n - 1], states[n], d);
    }
  }

  /** When the tunnel is over, the totals are the bytes that moved in each direction. */
  lemma TotalsExactly(idle: nat, states: seq<State>, steps: seq<Step>, n: nat, d: Dir)
    requires IsRun(idle, states, steps) && n <= |steps| && states[n].finished
    ensures d in states[n].totals && states[n].totals[d] == BytesMoved(steps, n, d)
  {
    ClosedOnceAndCounted(idle, states, steps, n);
    MovedExactly(idle, states, steps, n, d);
  }

  /** When one of the first steps of a run last moved data, or else its start. */
  function LastMoved(states: seq<State>, steps: seq<Step>, n: nat): int
    requires |states| == |steps| + 1 && n <= |steps|
  {
    if n == 0 then states[0].now else if steps[n - 1].Move? then states[n - 1].now else LastMoved(states, steps, n - 1)
  }

  lemma {:induction false} LastMoveExactly(idle: nat, states: seq<State>, steps: seq<Step>, n: nat)
    requires IsRun(idle, states, steps) && n <= |steps|
    ensures states[n].lastMove == LastMoved(states, steps, n)
  {
    if n > 0 {
      LastMoveExactly(idle, states, steps, n - 1);
      FollowsAt(idle, states, steps, n - 1);
      LastMoveStep(idle, states[n - 1], steps[n - 1], states[n]);
    }
  }

  lemma LastMoveStep(idle: nat, s: State, step: Step, s': State)
    requires Follows(idle, s, step, s')
    ensures s'.lastMove == if step.Move? then s.now else s.lastMove
  {
  }
}

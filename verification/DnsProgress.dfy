/** The resolver never deadlocks, and left alone it comes to rest. */
module DnsProgress {
  import opened Basics
  import opened Sums
  import opened Netip
  import opened DnsCache
  import opened DnsProtocol
  import opened DnsInvariants
  import opened DnsSafety

  predicate Finished(t: Task) { t.Returned? || t.Exited? }

  lemma SubsetOfSize<T>(a: set<T>, n: nat) returns (b: set<T>)
    requires n <= |a|
    ensures b <= a && |b| == n
  {
    b := a;
    while |b| > n
      invariant b <= a && |b| >= n
    {
      var x :| x in b;
      b := b - {x};
    }
  }

  lemma PopNeverBlocks(s: State, p: Pid)
    requires SlotsInv(s) && p in s.tasks && s.tasks[p].Pop?
    ensures Enabled(s, DoPop(p))
  {
    var slot := s.tasks[p].slot;
    assert RecordInv(s, slot) && p in Players(s.tasks, Holder(slot));
  }

  lemma GlobalNeverBlocks(s: State, p: Pid)
    requires GlobalInv(s) && p in s.tasks && s.tasks[p].Looked?
    ensures Enabled(s, PopGlobal(p))
  {
    assert p in Players(s.tasks, Upstream);
  }

  lemma RoomCanBeMade(entries: map<string, Entry>, now: int)
    ensures exists kept :: Survivors(entries, now, kept)
  {
    var live := LiveKeys(entries, now);
    if |entries| < MAX_ENTRIES {
      assert Survivors(entries, now, entries.Keys);
    } else if |live| < MAX_ENTRIES {
      assert Survivors(entries, now, live);
    } else {
      var kept := SubsetOfSize(live, MAX_ENTRIES - 1);
      assert Survivors(entries, now, kept);
    }
  }

  /** A step that some goroutine takes of itself: time passing, a new call, and giving up because a context is
      cancelled or has timed out are not. */
  predicate Own(step: Step) { !step.Tick? && !step.Call? && !step.Abandon? && !step.WaitCancelled? && !step.TimeOut? }

  predicate CanGo(s: State, step: Step) { Own(step) && Enabled(s, step) }

  ghost predicate SomeoneCanGo(s: State) { exists step :: CanGo(s, step) }

  predicate Unfinished(s: State, p: Pid) { p in s.tasks && !Finished(s.tasks[p]) }

  /** A caller before it waits, and the release closure, go on by themselves. */
  lemma CallerGoes(s: State, p: Pid)
    requires SlotsInv(s) && p in s.tasks
    requires s.tasks[p].Find? || s.tasks[p].Enter? || s.tasks[p].Recheck? || s.tasks[p].Pop? || s.tasks[p].Leave?
    ensures SomeoneCanGo(s)
  {
    var t := s.tasks[p];
    if t.Find? {
      assert CanGo(s, DoFind(p));
    } else if t.Enter? {
      var slot := FreshNumber(s.sh.slots.Keys);
      assert CanGo(s, DoEnter(p, slot));
    } else if t.Recheck? {
      var f := FreshNumber(s.heap.Keys);
      var r := FreshNumber(s.tasks.Keys);
      assert CanGo(s, DoRecheck(p, f, r));
    } else if t.Pop? {
      PopNeverBlocks(s, p);
      assert CanGo(s, DoPop(p));
    } else {
      assert CanGo(s, DoLeave(p));
    }
  }

  /** So does a flight that is past its wait for a place among the 256. */
  lemma FlightGoes(s: State, p: Pid)
    requires GlobalInv(s) && p in s.tasks && Running(s.tasks[p]) && !s.tasks[p].AwaitGlobal? && OwnsFlight(s, p)
    ensures SomeoneCanGo(s)
  {
    var t := s.tasks[p];
    if t.Looking? {
      assert CanGo(s, Answer(p, Addresses([])));
    } else if t.Looked? {
      GlobalNeverBlocks(s, p);
      assert CanGo(s, PopGlobal(p));
    } else if t.Stamp? {
      assert CanGo(s, DoStamp(p));
    } else if t.Insert? {
      RoomCanBeMade(s.sh.entries, s.now);
      var kept :| Survivors(s.sh.entries, s.now, kept);
      assert CanGo(s, DoInsert(p, kept));
    } else if t.Unregister? {
      assert CanGo(s, DoUnregister(p));
    } else {
      assert CanGo(s, DoClose(p));
    }
  }

  /** If all 256 places are taken, somebody who has one goes on. */
  lemma RunGoes(s: State, p: Pid)
    requires GlobalInv(s) && FlightsInv(s) && p in s.tasks && Running(s.tasks[p])
    ensures SomeoneCanGo(s)
  {
    if !s.tasks[p].AwaitGlobal? {
      FlightGoes(s, p);
    } else if s.global < MAX_CONCURRENT {
      assert CanGo(s, TakeGlobal(p));
    } else {
      var q :| q in Players(s.tasks, Upstream);
      FlightGoes(s, q);
    }
  }

  /** If all slots of a client are taken, somebody who has one goes on. */
  lemma QueueGoes(s: State, p: Pid)
    requires SlotsInv(s) && GlobalInv(s) && FlightsInv(s) && p in s.tasks && s.tasks[p].Queue?
    ensures SomeoneCanGo(s)
  {
    var slot := s.tasks[p].slot;
    assert RecordInv(s, slot);
    if s.sh.slots[slot].sem < MAX_PER_CLIENT {
      assert CanGo(s, TakeSlot(p));
    } else {
      var q :| q in Players(s.tasks, Holder(slot));
      if Running(s.tasks[q]) {
        RunGoes(s, q);
      } else {
        CallerGoes(s, q);
      }
    }
  }

  /** The flight somebody waits for is closed, or its goroutine leads to one that goes on. */
  lemma WaitGoes(s: State, p: Pid)
    requires GlobalInv(s) && FlightsInv(s) && ResultsInv(s) && p in s.tasks && s.tasks[p].Wait?
    requires s.tasks[p].flight in s.heap
    ensures SomeoneCanGo(s)
  {
    var f := s.tasks[p].flight;
    if s.heap[f].done {
      assert CanGo(s, WaitDone(p));
    } else {
      assert Attended(s, f);
      RunGoes(s, s.heap[f].runner);
    }
  }

  lemma SomeoneGoes(s: State, p: Pid)
    requires Inv(s) && Unfinished(s, p)
    ensures SomeoneCanGo(s)
  {
    var t := s.tasks[p];
    if t.Queue? {
      QueueGoes(s, p);
    } else if t.Wait? {
      assert GenuineTask(s, t);
      WaitGoes(s, p);
    } else if Running(t) {
      RunGoes(s, p);
    } else {
      CallerGoes(s, p);
    }
  }

  /** No deadlock: while any goroutine is unfinished, some goroutine can go on without anybody giving up. No slot,
      no place among the 256 and no flight is ever left with nobody to free it. */
  lemma NeverStuck(run: seq<State>, i: nat, p: Pid)
    requires IsRun(run) && i < |run| && Unfinished(run[i], p)
    ensures exists step :: CanGo(run[i], step)
  {
    RunInv(run, i);
    SomeoneGoes(run[i], p);
  }

  // ---------------------------------------------------------------------------------------------
  // Left alone, the resolver comes to rest

  /** The most steps a goroutine has before it, with those of the flight it may start. */
  function Rank(t: Task): nat {
    match t
    case Find(_, _) => 15
    case Enter(_, _) => 14
    case Queue(_, _, _) => 13
    case Recheck(_, _, _) => 12
    case AwaitGlobal(_, _, _) => 10
    case Looking(_, _, _) => 9
    case Looked(_, _, _, _) => 8
    case Stamp(_, _, _, _) => 7
    case Insert(_, _, _, _) => 6
    case Unregister(_, _, _) => 5
    case Close(_, _, _) => 4
    case Pop(_, _) => 3
    case Leave(_, _) => 2
    case Wait(_, _) => 1
    case Returned(_, _) => 0
    case Exited => 0
  }

  function Ranks(tasks: map<Pid, Task>): map<Pid, int> { map p | p in tasks :: Rank(tasks[p]) }

  ghost function Work(s: State): int { Sum(Ranks(s.tasks)) }

  lemma WorkIsNat(s: State)
    ensures Work(s) >= 0
  {
    SumNotNegative(Ranks(s.tasks).Keys, Ranks(s.tasks));
  }

  lemma WorkMoved(tasks: map<Pid, Task>, p: Pid, t: Task)
    ensures Sum(Ranks(tasks[p := t])) == Sum(Ranks(tasks)) + Rank(t) - (if p in tasks then Rank(tasks[p]) else 0)
  {
    SumUpdate(Ranks(tasks), p, Rank(t));
    assert Ranks(tasks[p := t]) == Ranks(tasks)[p := Rank(t)];
  }

  /** Whatever a goroutine does, giving up included: only time and new calls come from outside. */
  predicate Inner(s: State, step: Step) { Enabled(s, step) && !step.Tick? && !step.Call? }

  /** A step moves one goroutine, to a lower rank. */
  lemma StepLowers(s: State, step: Step)
    requires Inner(s, step) && !(step.DoRecheck? && Starts(s, step.p))
    ensures step.p in s.tasks && step.p in Apply(s, step).tasks
    ensures Apply(s, step).tasks == s.tasks[step.p := Apply(s, step).tasks[step.p]]
    ensures Rank(Apply(s, step).tasks[step.p]) < Rank(s.tasks[step.p])
  {
  }

  lemma WorkShrinks(s: State, step: Step)
    requires Inner(s, step)
    ensures Work(Apply(s, step)) < Work(s)
  {
    if step.DoRecheck? && Starts(s, step.p) {
      var t := s.tasks[step.p];
      var runner := AwaitGlobal(t.query, step.flight, t.held);
      WorkMoved(s.tasks, step.runner, runner);
      WorkMoved(s.tasks[step.runner := runner], step.p, Wait(t.query, step.flight));
    } else {
      StepLowers(s, step);
      WorkMoved(s.tasks, step.p, Apply(s, step).tasks[step.p]);
    }
  }

  /** The states of a run without new calls. */
  ghost predicate Undisturbed(s: State, run: seq<State>) {
    && |run| > 0 && run[0] == s
    && forall i :: 0 <= i < |run| - 1 ==> GoesOn(run[i], run[i + 1])
  }

  ghost predicate GoesOn(s: State, s': State) { exists step :: Inner(s, step) && s' == Apply(s, step) }

  /** However the goroutines are scheduled, an undisturbed run is no longer than the work there is. */
  lemma {:induction false} UndisturbedRunsEnd(s: State, run: seq<State>, n: nat)
    requires Undisturbed(s, run) && n < |run|
    ensures n <= n + Work(run[n]) <= Work(s)
  {
    WorkIsNat(run[n]);
    if n > 0 {
      UndisturbedRunsEnd(s, run, n - 1);
      assert GoesOn(run[n - 1], run[n - 1 + 1]);
      var step :| Inner(run[n - 1], step) && run[n] == Apply(run[n - 1], step);
      WorkShrinks(run[n - 1], step);
    }
  }

  lemma {:induction false} UndisturbedInv(s: State, run: seq<State>, n: nat)
    requires Inv(s) && Undisturbed(s, run) && n < |run|
    ensures Inv(run[n])
  {
    if n > 0 {
      UndisturbedInv(s, run, n - 1);
      assert GoesOn(run[n - 1], run[n - 1 + 1]);
      var step :| Inner(run[n - 1], step) && run[n] == Apply(run[n - 1], step);
      InvStep(run[n - 1], step);
    }
  }

  predicate AllFinished(s: State) { forall p :: p in s.tasks ==> Finished(s.tasks[p]) }

  /** All goroutines are finished, and everything they shared has been given back. */
  predicate AtRest(s: State) { AllFinished(s) && s.global == 0 && SlotsFree(s) && FlightsOver(s) }

  predicate SlotsFree(s: State) {
    && s.sh.clients == map[]
    && (forall slot :: slot in s.sh.slots ==> s.sh.slots[slot].sem == 0 && s.sh.slots[slot].users == 0)
  }

  predicate FlightsOver(s: State) { s.sh.flights == map[] && forall f :: f in s.heap ==> s.heap[f].done }

  lemma NobodyPlays(s: State, role: Role)
    requires AllFinished(s)
    ensures Count(s.tasks, role) == 0
  {
    assert Players(s.tasks, role) == {};
  }

  lemma MappedHasUsers(s: State, c: Addr)
    requires SlotsInv(s) && c in s.sh.clients
    ensures s.sh.slots[s.sh.clients[c]].users > 0
  {
    assert RecordInv(s, s.sh.clients[c]);
  }

  lemma FinishedFreesSlots(s: State)
    requires SlotsInv(s) && AllFinished(s)
    ensures SlotsFree(s)
  {
    forall slot | slot in s.sh.slots
      ensures s.sh.slots[slot].sem == 0 && s.sh.slots[slot].users == 0
    {
      assert RecordInv(s, slot);
      NobodyPlays(s, Holder(slot));
      NobodyPlays(s, User(slot));
    }
    forall c | c in s.sh.clients
      ensures s.sh.slots[s.sh.clients[c]].users > 0
    {
      MappedHasUsers(s, c);
    }
    assert s.sh.clients.Keys == {};
  }

  lemma FinishedClosesFlights(s: State)
    requires FlightsInv(s) && AllFinished(s)
    ensures FlightsOver(s)
  {
    assert forall f :: f in s.heap ==> !Attended(s, f);
    assert s.sh.flights.Keys == {};
  }

  /** In every reachable state: if no new call comes, every schedule, whoever gives up or times out in it, that goes on as
      long as it can ends with every caller answered, every flight closed and every slot given back. */
  lemma ComesToRest(run: seq<State>, i: nat, rest: seq<State>)
    requires IsRun(run) && i < |run| && Undisturbed(run[i], rest) && !SomeoneCanGo(rest[|rest| - 1])
    ensures AtRest(rest[|rest| - 1])
  {
    RunInv(run, i);
    UndisturbedInv(run[i], rest, |rest| - 1);
    var end := rest[|rest| - 1];
    forall p | p in end.tasks
      ensures Finished(end.tasks[p])
    {
      if Unfinished(end, p) {
        SomeoneGoes(end, p);
      }
    }
    NobodyPlays(end, Upstream);
    FinishedFreesSlots(end);
    FinishedClosesFlights(end);
  }
}
